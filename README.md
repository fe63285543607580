# pyvirtualcam, modelled in Dafny

pyvirtualcam sends frames from Python to a virtual camera. A `Camera` object
tries the registered backends in turn and keeps the first one whose native
object constructs. Every native backend is a *virtual output*. Its
constructor does four things:

- It picks a device: a v4l2loopback node, a Unity Capture slot, an AkVCam
  camera, the OBS virtual camera, or a CoreMediaIO stream.
- It records the device in a process-wide set of devices in use, where the
  backend keeps one.
- It works out the device's native pixel format from the caller's FourCC.
- It sizes the scratch buffers for that conversion.

`send` then runs zero, one or two libyuv wrapper calls and hands the last
buffer to the device. `stop` releases the device and its claim.

The model covers these parts:

- **ImageFormats**: the FourCC and layout catalogue, the frame sizes of
  `image_formats.h`, and the planes every libyuv wrapper passes.
- **Conversion**: a `Plan` is the conversion decision a backend takes once at
  construction: native format, scratch sizes, and the wrapper calls with
  their flip. `Sound` states when a plan is well-formed, and
  `RunStaysInBuffers` proves that every plane a sound plan touches lies
  inside the memory it provides.
- **One module per backend**, each with:
  - its plan function;
  - its device selection, as loops over oracle answers;
  - a `Session` class whose fields are the object's fields (running flags,
    device, buffers, release counts);
  - an `Open` method for the constructor.

  The backends are `V4l2Loopback`, `UnityCapture`, `UnityVideoCapture`,
  `ObsWindows`, `AkVCam`, `ObsCmio`, `ObsDal` and `ObsMac`. The three macOS
  backends share `MacPlan`.
- **DeviceRegistry**: the `active_devices` / `ACTIVE_DEVICES` sets.
  **Decimal**: the `/dev/video<i>` spelling.
- **MachTime**: the Mach-time to nanosecond scaling of the macOS backends.
- **The older controllers**: `LinuxController` (UYVY over v4l2loopback) and
  `WindowsControllers` (NV12 over the OBS queue). They use the hand-written
  converters of `native_shared` (**Yuv**).
- **Camera**: the Python front end.
- **The DirectShow capture helper** of the test suite: `DShowCapture` and
  the `CommandCam` routines it drives (FourCC names, MJPEG header repair,
  upper-casing, the I420 and bitmap index maths).

Operating-system answers enter as parameters:

- device probes, registry keys and shared-memory readiness;
- whether a pool or queue was created;
- the CoreMediaIO device and stream lists;
- the Mach timebase.

Colour arithmetic is a `Colour` parameter of three functions.

Where the code and the design description disagree, the model follows the
code:

- No backend checks the length of the frame it is given. `Camera.send`
  checks only the shape.
- Unity Capture always converts into its own output buffer, even when the
  input is already in the native layout.
- The `stop` of the OBS camera-extension and OBS macOS backends is not
  idempotent: every call releases the stream and pool once more. The OBS
  DAL backend's `stop` is guarded and releases only once.
- The AkVCam constructor accepts a camera count of zero. This is modelled
  by `AkVCam.SelectAsWritten` and recorded under Findings; `AkVCam.Open`
  uses the corrected selection, which refuses it.

## Model

| member | source | states |
|---|---|---|
| ImageFormats.Planes | pyvirtualcam/native_shared/image_formats.h:47-59 | the first plane of every layout starts at offset 0 with stride width × bytes per pixel and one row per frame row |
| ImageFormats.Invoke | pyvirtualcam/native_shared/image_formats.h:13-281 | a wrapper call passes the width and the signed height unchanged; every plane it reads ends within the source layout's frame size, and every plane it writes ends within the target layout's frame size, both at the absolute height |
| ImageFormats.I420ChromaFits | pyvirtualcam/native_shared/image_formats.h:47-59 | luma plus two quarter planes of truncated halves fit in `i420_frame_size` for every width and height, odd ones included |
| ImageFormats.Nv12ChromaFits | pyvirtualcam/native_shared/image_formats.h:85-93 | luma plus the interleaved chroma plane of h/2 rows fits in the NV12 frame size |
| ImageFormats.I422ChromaFits | pyvirtualcam/native_shared/image_formats.h:229-240 | luma plus two half-width chroma planes fit in `i422_frame_size` |
| ImageFormats.PlanesFit | pyvirtualcam/native_shared/image_formats.h:283-301 | every plane of every layout ends within that layout's frame size |
| Conversion.DirectSound | pyvirtualcam/native_linux_v4l2loopback/virtual_output.h:48-84 | a one-call plan is sound when the call reads the input layout and writes the native one |
| Conversion.ViaScratchSound | pyvirtualcam/native_windows_obs/virtual_output.h:60-86 | a two-call plan is sound when the first call reads the input, the second reads what the first wrote, and the second writes the native layout |
| Conversion.Run | pyvirtualcam/native_linux_v4l2loopback/virtual_output.h:193-224 | `send` makes exactly one wrapper call per plan step |
| Conversion.RunStaysInBuffers | pyvirtualcam/native_windows_obs/virtual_output.h:116-162 | under a sound plan every plane read lies inside the caller's frame or an allocated scratch buffer, every plane written lies inside an allocated scratch buffer, and the buffer handed to the device holds exactly one native frame |
| MachTime.ScaleMachTimeNearExact | pyvirtualcam/native_macos_obs_dal/virtual_output.h:47-55 | the split 32-bit computation gives the exact ticks × numer / denom, or one less, modulo 2^64 |
| MachTime.ScaleMachTimeIdentity | pyvirtualcam/native_macos_obs/virtual_output.h:57-65 | with numer == denom the tick count is returned unchanged |
| MachTime.HalvesFit | pyvirtualcam/native_macos_obs_dal/virtual_output.h:47-55 | the products of both halves, and the shifted remainder, stay below 2^64 |
| V4l2Loopback.PlanFor | pyvirtualcam/native_linux_v4l2loopback/virtual_output.h:48-84 | RGB and BGR go to I420 through one call into an output buffer of the I420 size; the pass-through formats need no step and no buffer; every other format is "Unsupported image format."; every plan is sound |
| V4l2Loopback.TryOpen | pyvirtualcam/native_linux_v4l2loopback/virtual_output.h:86-129 | a device opens exactly when it is not in use here, opens, answers the capability query, is an output and has driver "v4l2 loopback"; a name in use is refused as an invalid argument; EACCES alone gives a runtime error |
| V4l2Loopback.ScanDevices | pyvirtualcam/native_linux_v4l2loopback/virtual_output.h:137-155 | the scan returns the first of /dev/video0..99 that opens, provided every earlier one failed with an invalid argument; a runtime error aborts the scan at that index; exhaustion means all 100 were skipped; the loop's result is the outcome `ScanFrom` gives from index 0 |
| V4l2Loopback.ScanFromSpec | pyvirtualcam/native_linux_v4l2loopback/virtual_output.h:137-155 | the index a scan stops at either opens or fails with an error other than an invalid argument, and every index before it from the start was skipped; exhaustion means every remaining index was skipped |
| V4l2Loopback.Chosen | pyvirtualcam/native_linux_v4l2loopback/virtual_output.h:132-155 | with a hint the device is the hint exactly when `TryOpen` accepts it; without one it is /dev/video<i> for the index the scan finds, and an exhausted scan is the "No v4l2 loopback device found" error |
| V4l2Loopback.Session.Started | pyvirtualcam/native_linux_v4l2loopback/virtual_output.h:176-179 | a started session is running with an open descriptor and keeps its dimensions, format, plan and device |
| V4l2Loopback.Session.Stop | pyvirtualcam/native_linux_v4l2loopback/virtual_output.h:182-191 | the first stop closes the descriptor and removes the device from the registry; a later stop changes nothing |
| V4l2Loopback.Session.Send | pyvirtualcam/native_linux_v4l2loopback/virtual_output.h:193-224 | a stopped session does nothing; a running one makes the plan's calls and writes the final buffer of `_out_frame_size` bytes; with a pass-through plan it writes the caller's frame with no call |
| V4l2Loopback.Session.Device | pyvirtualcam/native_linux_v4l2loopback/virtual_output.h:226-228 | the device name chosen at construction, after stop too |
| V4l2Loopback.Session.NativeFourcc | pyvirtualcam/native_linux_v4l2loopback/virtual_output.h:230-232 | I420 for RGB and BGR input, the input format itself otherwise |
| V4l2Loopback.Open | pyvirtualcam/native_linux_v4l2loopback/virtual_output.h:40-180 | an unsupported format fails with the plan's error; then a rejected hint or an aborted or exhausted scan fails with that error, and a failed configuration fails with "could not be configured" and the reason; otherwise construction succeeds on exactly the device `Chosen` names; a failure leaves the registry unchanged; success claims a device that was free, passes `TryOpen` and is configured, and adds exactly that device to the registry |
| DeviceRegistry.Registry.constructor | pyvirtualcam/native_linux_v4l2loopback/virtual_output.h:25 | the process starts with no device in use |
| DeviceRegistry.Registry.Claim | pyvirtualcam/native_linux_v4l2loopback/virtual_output.h:179 | claiming adds exactly the device |
| DeviceRegistry.Registry.Release | pyvirtualcam/native_linux_v4l2loopback/virtual_output.h:190 | releasing removes exactly the device |
| Decimal.DigitChar | pyvirtualcam/native_linux_v4l2loopback/virtual_output.h:138-141 | a digit below ten is spelled by the character of that value |
| Decimal.ToDecimal | pyvirtualcam/native_linux_v4l2loopback/virtual_output.h:138-141 | the spelling of a number is non-empty and all digits |
| Decimal.ValueOfToDecimal | pyvirtualcam/native_linux_v4l2loopback/virtual_output.h:138-141 | reading the decimal spelling back gives the number |
| Decimal.ToDecimalInjective | pyvirtualcam/native_linux/controller/controller.cpp:38 | different indices give different device paths |
| UnityCapture.RTrim | pyvirtualcam/native_windows_unity_capture/virtual_output.h:19-23 | the backward search returns the string without its trailing control and space characters |
| UnityCapture.TrimEndSpec | pyvirtualcam/native_windows_unity_capture/virtual_output.h:19-23 | the trimmed string is a prefix, everything cut is trimmable, and its last character is not |
| UnityCapture.TrimEndIdempotent | pyvirtualcam/native_windows_unity_capture/virtual_output.h:19-23 | trimming twice is trimming once |
| UnityCapture.GetName | pyvirtualcam/native_windows_unity_capture/virtual_output.h:25-38 | a slot has a name exactly when its registry value exists, and the name is that value trimmed |
| UnityCapture.SelectNamed | pyvirtualcam/native_windows_unity_capture/virtual_output.h:62-75 | a name in use is refused; otherwise the lowest of the 74 slots with that name is chosen, or "No camera registered with this name." when no slot has it; the result is `Selection` with that hint |
| UnityCapture.SelectFree | pyvirtualcam/native_windows_unity_capture/virtual_output.h:76-92 | the lowest slot that has a name not in use is chosen; otherwise every slot is unavailable, and the error says "All cameras are already in use." exactly when some slot is registered; the result is `Selection` without a hint |
| UnityCapture.ToBgra | pyvirtualcam/native_windows_unity_capture/virtual_output.h:144-170 | each format needing a scratch buffer is converted from its own layout into BGRA |
| UnityCapture.PlanFor | pyvirtualcam/native_windows_unity_capture/virtual_output.h:97-117 | exactly the listed formats are supported, every plan is sound with native RGBA and a BGRA-sized output buffer, and any other format is "Unsupported image format." |
| UnityCapture.PlanForShape | pyvirtualcam/native_windows_unity_capture/virtual_output.h:142-176 | a scratch buffer of BGRA size exists exactly for the formats converted to BGRA first, and only the last call flips the image |
| UnityCapture.Session.Started | pyvirtualcam/native_windows_unity_capture/virtual_output.h:118-119 | a started session is running and attached to shared memory, with its slot and device |
| UnityCapture.Session.Stop | pyvirtualcam/native_windows_unity_capture/virtual_output.h:122-128 | the first stop detaches the sender and releases the name; a later stop changes nothing |
| UnityCapture.Session.Send | pyvirtualcam/native_windows_unity_capture/virtual_output.h:130-186 | stopped: nothing; sender not ready: nothing is sent; otherwise the plan's calls run, only the last with the negated height, and the BGRA output frame is handed over |
| UnityCapture.Session.Device | pyvirtualcam/native_windows_unity_capture/virtual_output.h:188-190 | the chosen name |
| UnityCapture.Session.NativeFourcc | pyvirtualcam/native_windows_unity_capture/virtual_output.h:192-194 | a FourCC of RGBA layout in memory |
| UnityCapture.Open | pyvirtualcam/native_windows_unity_capture/virtual_output.h:60-120 | a hinted name in use is an invalid argument; a selection error is raised as is, then an unsupported format with the plan's error; success holds exactly when the slot is selectable and the format supported, and uses the selected slot; failure leaves the registry unchanged; success uses a slot below 74 whose name is the device, equal to the hint when given, previously free and now claimed |
| UnityVideoCapture.ParseInt | pyvirtualcam/unity_video_capture/virtual_output.h:15-24 | the digit loop returns the decimal value of an all-digit non-empty string and -1 otherwise |
| UnityVideoCapture.ParseIntRoundTrip | pyvirtualcam/unity_video_capture/virtual_output.h:15-24 | parsing the decimal spelling of n gives n |
| UnityVideoCapture.ParseIntLeadingZero | pyvirtualcam/unity_video_capture/virtual_output.h:15-24 | a leading zero does not change the value |
| UnityVideoCapture.ParseIntRejects | pyvirtualcam/unity_video_capture/virtual_output.h:15-24 | any non-digit makes the result -1 |
| UnityVideoCapture.FindNameAsWritten | pyvirtualcam/unity_video_capture/virtual_output.h:26-35 | as written, every non-empty name is reported as not registered |
| UnityVideoCapture.FindName | pyvirtualcam/unity_video_capture/virtual_output.h:57-58 | the lowest slot registered under the name, or the "no such name" error when none of the slots has it |
| UnityVideoCapture.FindFirst | pyvirtualcam/unity_video_capture/virtual_output.h:61-62 | the lowest registered slot, or the "none registered" error when no slot is registered |
| UnityVideoCapture.SelectSlot | pyvirtualcam/unity_video_capture/virtual_output.h:51-63 | an index hint below 74 picks that slot if registered, else fails; any other non-empty hint is a name, looked up by the corrected comparison, giving the lowest slot with that name or the no-such-name error; an empty hint gives -1; no hint takes the lowest registered slot, or the none-registered error |
| UnityVideoCapture.ToBgra | pyvirtualcam/unity_video_capture/virtual_output.h:83-111 | each format converted first goes from its own layout to BGRA |
| UnityVideoCapture.PlanFor | pyvirtualcam/unity_video_capture/virtual_output.h:83-119 | exactly the listed formats are supported; the plan is sound, targets ARGB, and ends with one flipping BGRA copy into the output buffer; other formats are "This format is currently not supported." |
| UnityVideoCapture.Session.Started | pyvirtualcam/unity_video_capture/virtual_output.h:64-72 | a started session is running with its dimensions, format and slot |
| UnityVideoCapture.Session.Stop | pyvirtualcam/unity_video_capture/virtual_output.h:75-79 | the session stops running |
| UnityVideoCapture.Session.Send | pyvirtualcam/unity_video_capture/virtual_output.h:81-121 | stopped: nothing; an unsupported format raises at send time; otherwise the plan's calls run, the last with the negated height, and one BGRA frame is handed over |
| UnityVideoCapture.Session.NativeFourcc | pyvirtualcam/unity_video_capture/virtual_output.h:127-129 | a FourCC of BGRA layout in memory |
| UnityVideoCapture.Open | pyvirtualcam/unity_video_capture/virtual_output.h:50-73 | success needs a ready sender and gives slot -1 or a registered slot; an unready sender fails |
| ObsWindows.PlanFor | pyvirtualcam/native_windows_obs/virtual_output.h:60-86 | exactly the seven listed formats are supported, always towards NV12 with an NV12-sized output unless the input is NV12, and every plan is sound |
| ObsWindows.PlanForScratch | pyvirtualcam/native_windows_obs/virtual_output.h:62-86 | RGB and BGR go through an I420 scratch buffer and gray through a BGRA one; I420, YUY2 and UYVY take one direct call; NV12 passes straight through |
| ObsWindows.Session.Started | pyvirtualcam/native_windows_obs/virtual_output.h:96 | a started session is running with an open queue |
| ObsWindows.Session.Stop | pyvirtualcam/native_windows_obs/virtual_output.h:99-106 | the first stop closes the queue; a later one changes nothing |
| ObsWindows.Session.Send | pyvirtualcam/native_windows_obs/virtual_output.h:108-162 | a running session makes the plan's calls and queues the final buffer with Y at 0, UV at width × height and line sizes {width, width/2}; the UV offset is the NV12 chroma plane's and lies within the frame |
| ObsWindows.Session.Device | pyvirtualcam/native_windows_obs/virtual_output.h:164-168 | always the OBS virtual camera's name |
| ObsWindows.Session.NativeFourcc | pyvirtualcam/native_windows_obs/virtual_output.h:170-172 | a FourCC of NV12 layout |
| ObsWindows.Open | pyvirtualcam/native_windows_obs/virtual_output.h:38-97 | no OBS: its runtime error; a foreign device name: the invalid-argument error; success exactly when OBS is registered, the hint is absent or OBS's name, the format is supported and the queue was created |
| MacPlan.PlanFor | pyvirtualcam/native_macos_obs_cmioextension/virtual_output.hpp:73-101 | exactly the seven listed formats are supported, always towards UYVY with a UYVY-sized output unless the input is UYVY, and every plan is sound |
| MacPlan.PlanForScratch | pyvirtualcam/native_macos_obs_cmioextension/virtual_output.hpp:186-221 | RGB, BGR and gray use a BGRA scratch buffer, NV12 an I420 one and YUY2 an I422 one; I420 takes one call; UYVY passes straight through |
| ObsCmio.InstanceLock.constructor | pyvirtualcam/native_macos_obs_cmioextension/virtual_output.hpp:40 | the instance lock starts free |
| ObsCmio.FindObsDevice | pyvirtualcam/native_macos_obs_cmioextension/virtual_output.hpp:131-147 | the id of the first device with the OBS UID, or 0 when there is none; the loop's result is `FirstObsId` |
| ObsCmio.Session.Started | pyvirtualcam/native_macos_obs_cmioextension/virtual_output.hpp:58-170 | a started session is streaming with nothing released |
| ObsCmio.Session.Stop | pyvirtualcam/native_macos_obs_cmioextension/virtual_output.hpp:172-176 | every stop, the first or not, stops the stream and releases format and pool once more |
| ObsCmio.Session.Destroy | pyvirtualcam/native_macos_obs_cmioextension/virtual_output.hpp:42 | destroying the object frees the instance lock |
| ObsCmio.Session.Send | pyvirtualcam/native_macos_obs_cmioextension/virtual_output.hpp:178-255 | stream id 0 is exactly the "Stream does not exist." error; otherwise the plan's calls run and a pooled buffer of exactly the UYVY size receives the frame |
| ObsCmio.Session.Device | pyvirtualcam/native_macos_obs_cmioextension/virtual_output.hpp:257-261 | always the OBS virtual camera's name |
| ObsCmio.Session.NativeFourcc | pyvirtualcam/native_macos_obs_cmioextension/virtual_output.hpp:263-265 | a FourCC of UYVY layout |
| ObsCmio.Open | pyvirtualcam/native_macos_obs_cmioextension/virtual_output.hpp:58-170 | a foreign name is an invalid argument; a held lock is the multiple-cameras error; then, in order, the plan error, the pool error, "not installed" when no device has the OBS UID, "Stream not found" with fewer than two streams and "Couldn't start stream"; success exactly when all checks pass; failure leaves the lock as it was; success takes the lock and uses the second stream of the first OBS device |
| ObsCmio.SecondInstanceRefused | pyvirtualcam/native_macos_obs_cmioextension/virtual_output.hpp:58-67 | while a first session is alive a second construction fails with the multiple-cameras error |
| ObsDal.Session.Started | pyvirtualcam/native_macos_obs_dal/virtual_output.h:142-150 | a started session has its Mach server up and nothing released |
| ObsDal.Session.Stop | pyvirtualcam/native_macos_obs_dal/virtual_output.h:152-168 | the server is down afterwards and the pool is released only by the first stop |
| ObsDal.Session.Send | pyvirtualcam/native_macos_obs_dal/virtual_output.h:170-253 | with the server down nothing is sent; otherwise the plan's calls run, a pooled buffer of exactly the UYVY size receives the frame, and the frame is stamped with the scaled Mach time |
| ObsDal.Session.Device | pyvirtualcam/native_macos_obs_dal/virtual_output.h:255-259 | always the OBS virtual camera's name |
| ObsDal.Session.NativeFourcc | pyvirtualcam/native_macos_obs_dal/virtual_output.h:261-263 | a FourCC of UYVY layout |
| ObsDal.Open | pyvirtualcam/native_macos_obs_dal/virtual_output.h:58-150 | a missing plug-in, a 26.x/27.x plug-in and a foreign name each give their error; success exactly when none of these applies, the format is supported, and the pool and the server start |
| ObsDal.StopIsFinal | pyvirtualcam/native_macos_obs_dal/virtual_output.h:152-173 | after a stop a send does nothing and a second stop releases nothing more |
| ObsMac.PickDevice | pyvirtualcam/native_macos_obs/virtual_output.h:143-164 | the second device when there are two or more, else 0 |
| ObsMac.Session.Started | pyvirtualcam/native_macos_obs/virtual_output.h:68-184 | a started session is streaming with nothing released |
| ObsMac.Session.Stop | pyvirtualcam/native_macos_obs/virtual_output.h:186-197 | every stop releases format and pool once more |
| ObsMac.Session.Send | pyvirtualcam/native_macos_obs/virtual_output.h:199-281 | even after stop, the plan's calls run, a pooled buffer of exactly the UYVY size receives the frame, and the stamp is the scaled Mach time |
| ObsMac.Session.Device | pyvirtualcam/native_macos_obs/virtual_output.h:283-287 | always the OBS virtual camera's name |
| ObsMac.Session.NativeFourcc | pyvirtualcam/native_macos_obs/virtual_output.h:289-291 | a FourCC of UYVY layout |
| ObsMac.Open | pyvirtualcam/native_macos_obs/virtual_output.h:68-184 | an unsupported format is its error; success exactly when the pool is created and the picked device has two streams; otherwise the stream index raises NSRangeException |
| AkVCam.ScanCameras | pyvirtualcam/native_windows_akvcam/virtual_output.h:102-122 | the loop over cameras 1..count returns what the recursive scan specifies |
| AkVCam.ScanFromPicks | pyvirtualcam/native_windows_akvcam/virtual_output.h:102-122 | a chosen camera is the first wanted one: every earlier camera was read and not wanted |
| AkVCam.ScanFromNone | pyvirtualcam/native_windows_akvcam/virtual_output.h:102-122 | no choice means every camera was read and none was wanted |
| AkVCam.ScanFromErrors | pyvirtualcam/native_windows_akvcam/virtual_output.h:102-122 | the scan fails only with an "Unable to get camera …" runtime error |
| AkVCam.SelectAsWrittenZeroCameras | pyvirtualcam/native_windows_akvcam/virtual_output.h:81-127 | as written, a count of 0 passes the selection with no camera chosen |
| AkVCam.SelectMatchesAsWritten | pyvirtualcam/native_windows_akvcam/virtual_output.h:81-127 | away from a count of 0 the corrected selection gives the same result as the code |
| AkVCam.SelectPicksFreeCamera | pyvirtualcam/native_windows_akvcam/virtual_output.h:81-127 | a selected camera is registered, not in use, and equals the hint when one is given |
| AkVCam.Terminated | pyvirtualcam/native_windows_akvcam/virtual_output.h:54-73 | a string read from the registry is the value followed by one NUL |
| AkVCam.ScanAsReadNeverMatches | pyvirtualcam/native_windows_akvcam/virtual_output.h:102-122 | with NUL-terminated descriptions the camera loop never picks a camera for a hint that does not end in NUL, and with readable keys it runs to the end |
| AkVCam.HintedSelectionAsReadFails | pyvirtualcam/native_windows_akvcam/virtual_output.h:81-127 | as written, a hinted selection never yields a camera; with readable keys, at least one camera and a hint not in use it is "All cameras being used..." |
| AkVCam.SelectFailsOnlyWhenAllInUse | pyvirtualcam/native_windows_akvcam/virtual_output.h:81-127 | "All cameras being used" without a hint means every registered camera is in use |
| AkVCam.StreamFormat | pyvirtualcam/native_windows_akvcam/virtual_output.h:134-149 | only RGB, NV12, YUY2 and UYVY have a stream format; any other is "Unsupported image format." |
| AkVCam.Command | pyvirtualcam/native_windows_akvcam/virtual_output.h:151-159 | the command never exceeds the 1024-byte buffer, is a prefix of the full command line, and is the whole line when that fits |
| AkVCam.SendAsWrittenLosesFrame | pyvirtualcam/native_windows_akvcam/virtual_output.h:219-225 | writes that repeat the first byte cannot reproduce a frame whose bytes differ |
| AkVCam.Session.Started | pyvirtualcam/native_windows_akvcam/virtual_output.h:188-192 | a started session is running with a fresh row buffer and its camera and command |
| AkVCam.Session.Stop | pyvirtualcam/native_windows_akvcam/virtual_output.h:195-211 | the first stop releases the camera's description; a later one changes nothing |
| AkVCam.Session.SendAsWritten | pyvirtualcam/native_windows_akvcam/virtual_output.h:213-226 | as written, each of the height writes is a row of the frame's first byte |
| AkVCam.Session.Send | pyvirtualcam/native_windows_akvcam/virtual_output.h:213-226 | corrected: the height writes of 3 × width bytes concatenate to the frame |
| AkVCam.Session.LoadRow | pyvirtualcam/native_windows_akvcam/virtual_output.h:219-221 | the row buffer holds the frame's bytes of that row |
| AkVCam.Session.Device | pyvirtualcam/native_windows_akvcam/virtual_output.h:228-231 | corrected: the selected camera's description |
| AkVCam.Session.DeviceAsWritten | pyvirtualcam/native_windows_akvcam/virtual_output.h:228-231 | as written: the never-assigned name, which is empty |
| AkVCam.DeviceAsWrittenLosesName | pyvirtualcam/native_windows_akvcam/virtual_output.h:228-231 | for any camera with a description the as-written device differs from it |
| AkVCam.Session.NativeFourcc | pyvirtualcam/native_windows_akvcam/virtual_output.h:233-235 | a FourCC of YUYV layout |
| AkVCam.Open | pyvirtualcam/native_windows_akvcam/virtual_output.h:76-194 | a selection error is raised as is; success exactly when a camera is selected, the format has a stream format, the install path exists and the process starts; success claims the camera's description and the command names its id |
| LinuxController.ScanIndices | pyvirtualcam/native_linux/controller/controller.cpp:34-70 | the first index that is not skipped is found when usable, or is a permission error; exhaustion exactly when all 100 are skipped; the loop's result is `ScanFrom` from index 0 |
| LinuxController.Context.constructor | pyvirtualcam/native_linux/main.cpp:10 | a default-constructed context, the state that controller.cpp:27 first reads, is not running and has no device |
| LinuxController.Context.Start | pyvirtualcam/native_linux/controller/controller.cpp:25-103 | starting twice is a logic error; a failure leaves context and registry unchanged; a permission error at the first unskipped index is the missing-permissions error for that device, exhaustion is "No v4l2 loopback device found", and a failed configuration is "could not be configured" with the reason; otherwise start succeeds on the index the scan finds; success requires a configured device, opens the first usable free index with all earlier ones skipped and claims it; with configuration succeeding and no permission errors, success is equivalent to a usable free index existing |
| LinuxController.Context.Fill | pyvirtualcam/native_linux/controller/controller.cpp:95-102 | the context records the running device, its index, the dimensions and a fresh buffer |
| LinuxController.Context.Stop | pyvirtualcam/native_linux/controller/controller.cpp:110-120 | the first stop closes the device and releases its index; a later stop changes nothing |
| LinuxController.Context.Send | pyvirtualcam/native_linux/controller/controller.cpp:124-138 | a running context fills exactly the written bytes of its UYVY buffer from the frame and writes the whole buffer; a stopped one changes nothing |
| LinuxController.Context.Device | pyvirtualcam/native_linux/controller/controller.cpp:105-108 | the device path recorded at start |
| WindowsControllers.Controller.Rgb | pyvirtualcam/native_windows/controller/controller.cpp:70-72 | the controller reads packed 24-bit RGB and starts stopped |
| WindowsControllers.Controller.Rgba | pyvirtualcam/native_windows_obs/controller/controller.c:70-72 | the controller reads packed 32-bit RGBA and starts stopped |
| WindowsControllers.Controller.Start | pyvirtualcam/native_windows/controller/controller.cpp:38-59 | starting twice fails and keeps the output running; otherwise it runs exactly when the queue was created |
| WindowsControllers.Controller.Stop | pyvirtualcam/native_windows/controller/controller.cpp:61-68 | the output is no longer running |
| WindowsControllers.Controller.IsRunning | pyvirtualcam/native_windows/controller/controller.cpp:121-124 | whether the output runs |
| WindowsControllers.Controller.VirtualVideo | pyvirtualcam/native_windows/controller/controller.cpp:72-119 | stopped: nothing; allocation failure: nothing; otherwise a fresh NV12 frame of (w + w/2) × h bytes whose every byte is the reference NV12 byte, queued with UV at w × h and line sizes {w, w/2} |
| WindowsControllers.ChromaIndexAsWrittenOverlaps | pyvirtualcam/native_windows_obs/controller/controller.c:105 | as written, two different blocks of a width-4 frame write the same chroma byte |
| WindowsControllers.ChromaIndexAsWrittenHalf | pyvirtualcam/native_windows_obs/controller/controller.c:105 | as written, every chroma write falls in the first half of the plane (plus half a row) |
| WindowsControllers.LumaInputAsWrittenDropsBlue | pyvirtualcam/native_windows_obs/controller/controller.c:93 | as written, luma reads green in place of blue, so a pixel whose blue differs from its green is mis-read |
| Yuv.UyvyDecompose | pyvirtualcam/native_shared/yuv.cpp:40-44 | byte j of group x in row y is at y × 2w + 4x + j, is written, lies in the frame and comes from pixel pair y × w + 2x |
| Yuv.UyvyFrameRows | pyvirtualcam/native_shared/uyvy.h:39-40 | the frame is h rows of 2w bytes |
| Yuv.UyvyPair | pyvirtualcam/native_shared/yuv.cpp:43-44 | every written byte reads a pixel pair inside the RGB frame |
| Yuv.UyvyFrameFromRgb | pyvirtualcam/native_shared/yuv.cpp:40-71 | after the loop every written byte holds its reference value and every other byte is unchanged |
| Yuv.UyvyStep | pyvirtualcam/native_shared/yuv.cpp:43-68 | one group extends the filled prefix by its four bytes |
| Yuv.UyvyByteAt | pyvirtualcam/native_shared/yuv.cpp:43-68 | the four bytes of a group are U, Y₁, V, Y₂ of its pixel pair |
| Yuv.UyvyGroupOrder | pyvirtualcam/native_shared/uyvy.h:6-37 | the byte order of each group is U, Y of the first pixel, V, Y of the second |
| Yuv.UyvyRowTail | pyvirtualcam/native_shared/uyvy.h:8 | bytes after the last whole group of a row are not written |
| Yuv.UyvyEvenWidthCovers | pyvirtualcam/native_shared/uyvy.h:6-37 | with an even width every byte of the frame is written |
| Yuv.UyvyOddWidthSkipsLastColumn | pyvirtualcam/native_shared/uyvy.h:6-37 | with an odd width the last pixel of every row is never written |
| Yuv.UyvyGroupsDisjoint | pyvirtualcam/native_shared/uyvy.h:9 | distinct (row, group, byte) triples write distinct bytes |
| Yuv.Nv12FrameSizeEvenWidth | pyvirtualcam/native_shared/nv12.h:35-37 | (w + w/2) × h equals w × h × 3/2 for an even width and is smaller for an odd width and two or more rows |
| Yuv.Nv12PlanesFillFrame | pyvirtualcam/native_shared/nv12.h:6-33 | with even dimensions luma plus chroma plane is exactly the frame |
| Yuv.ChromaIndexLayout | pyvirtualcam/native_shared/yuv.cpp:33-34 | the U/V pair of block (x, y) sits in chroma row y/2 at columns x and x + 1 |
| Yuv.ChromaIndexInjective | pyvirtualcam/native_shared/yuv.cpp:33-34 | distinct blocks, or U and V of one block, never share a chroma byte |
| Yuv.ChromaBlockInFrame | pyvirtualcam/native_shared/yuv.cpp:24-28 | every chroma byte belongs to a 2×2 block inside the frame |
| Yuv.BlockInFrame | pyvirtualcam/native_shared/yuv.cpp:27-31 | all four pixels of a block lie inside the RGB frame |
| Yuv.ChromaPairBytes | pyvirtualcam/native_shared/yuv.cpp:29-35 | the reference frame holds U then V of the block's truncated average at the block's pair |
| Yuv.LumaPlane | pyvirtualcam/native_shared/yuv.cpp:19-22 | the first w × h bytes become the luma of each pixel; nothing else changes |
| Yuv.ChromaPlane | pyvirtualcam/native_shared/yuv.cpp:23-37 | the chroma plane becomes the reference chroma bytes; nothing else changes |
| Yuv.ChromaStep | pyvirtualcam/native_shared/yuv.cpp:25-36 | one block extends the filled chroma prefix by its two bytes |
| Yuv.Nv12FrameFromRgb | pyvirtualcam/native_shared/yuv.cpp:11-38 | with even dimensions every byte of the NV12 frame holds the reference NV12 byte, and the bytes past the frame are unchanged |
| Camera.JoinLines | pyvirtualcam/camera.py:40 | joining no lines is empty and one line is itself |
| Camera.JoinLinesLength | pyvirtualcam/camera.py:40 | the joined message has the lines' lengths plus one separator between each pair |
| Camera.ErrorLines | pyvirtualcam/camera.py:30-35 | one message per failed backend, in order |
| Camera.Fallback | pyvirtualcam/camera.py:25-40 | the first backend that constructs is chosen and every earlier one failed; when none constructs all failed; the error lines are those of the failures |
| Camera.Forwarded | pyvirtualcam/camera.py:97-99 | a four-channel frame loses its fourth channel; any other frame is forwarded unchanged |
| Camera.Validate | pyvirtualcam/camera.py:95-101 | no error exactly for a height × width × 3 or × 4 frame; a wrong shape gives the dimensions message and a wrong channel count the channels message |
| Camera.ForwardedIsRgb | pyvirtualcam/camera.py:94-101 | whatever passes validation reaches the backend as height × width × 3 |
| Camera.Camera.Built | pyvirtualcam/camera.py:42-51 | a new camera keeps its width, height, fps, backend and device and has sent nothing |
| Camera.Camera.Send | pyvirtualcam/camera.py:94-119 | a valid frame increments the frame count and reaches the backend as RGB; an invalid one raises and changes nothing |
| Camera.Camera.Close | pyvirtualcam/camera.py:91-92 | close is forwarded to the backend |
| Camera.Open | pyvirtualcam/camera.py:23-54 | an unknown backend name is a KeyError; success keeps the first candidate that constructs, every earlier one failed, and the dimensions and fps are recorded; when some candidate constructs, construction succeeds |
| DShowCapture.ToRgb | test/win-dshow-capture/pyvirtualcam_win_dshow_capture/__init__.py:9-14 | row i of the result is row h-1-i of the grab, with channels 0 and 2 exchanged |
| DShowCapture.ToRgbInvolution | test/win-dshow-capture/pyvirtualcam_win_dshow_capture/__init__.py:9-14 | converting twice gives the grab back |
| DShowCapture.Flipped | test/win-dshow-capture/pyvirtualcam_win_dshow_capture/__init__.py:9 | the rows in reverse order |
| DShowCapture.Copy | test/win-dshow-capture/pyvirtualcam_win_dshow_capture/__init__.py:10 | a fresh array with the same contents |
| DShowCapture.AssignChannel | test/win-dshow-capture/pyvirtualcam_win_dshow_capture/__init__.py:11-13 | one channel is overwritten from the source, everything else unchanged |
| DShowCapture.Capture | test/win-dshow-capture/pyvirtualcam_win_dshow_capture/__init__.py:3-14 | an NV12 grab is returned itself; any other grab yields a fresh image holding it upright and in RGB order |
| CommandCam.Clip | test/win-dshow-capture/CommandCam.cpp:188-194 | negative values clip to 0, values above 255 to 255, others are kept |
| CommandCam.ClipNearest | test/win-dshow-capture/CommandCam.cpp:188-194 | clipping is idempotent and gives the byte nearest to the value |
| CommandCam.Pack | test/win-dshow-capture/CommandCam.cpp:451-455 | the packed code fits in 32 bits |
| CommandCam.Str2Fourcc | test/win-dshow-capture/CommandCam.cpp:442-458 | the three RGB names (any case) give BI_RGB; any other string is packed little-endian |
| CommandCam.UpToNul | test/win-dshow-capture/CommandCam.cpp:462-476 | the longest NUL-free prefix, stopping at the first NUL |
| CommandCam.Fourcc2Str | test/win-dshow-capture/CommandCam.cpp:462-476 | BI_RGB gives "RGB", BI_BITFIELDS "RGB555", any other code its four bytes up to the first NUL |
| CommandCam.UnpackPack | test/win-dshow-capture/CommandCam.cpp:452-455 | byte k of a packed four-character code is character k |
| CommandCam.Fourcc2StrOfStr2Fourcc | test/win-dshow-capture/CommandCam.cpp:442-476 | a four-character NUL-free name that is not an RGB name converts to a code and back to itself |
| CommandCam.Yuy2Fourcc | test/win-dshow-capture/CommandCam.cpp:72 | "YUY2" packs to the YUY2 constant |
| CommandCam.UyvyFourcc | test/win-dshow-capture/CommandCam.cpp:75 | "UYVY" packs to the UYVY constant |
| CommandCam.Nv12Fourcc | test/win-dshow-capture/CommandCam.cpp:82 | "NV12" packs to the NV12 constant |
| CommandCam.I420Fourcc | test/win-dshow-capture/CommandCam.cpp:83 | "I420" packs to the I420 constant |
| CommandCam.MjpgFourcc | test/win-dshow-capture/CommandCam.cpp:86 | "MJPG" packs to the MJPG constant |
| CommandCam.RgbNameFourcc | test/win-dshow-capture/CommandCam.cpp:447 | "rgb" in lower case gives BI_RGB |
| CommandCam.Str2FourccOfName | test/win-dshow-capture/CommandCam.cpp:451-455 | a four-letter name not starting with s packs as c0 + c1·2^8 + c2·2^16 + c3·2^24 |
| CommandCam.NotRgbName | test/win-dshow-capture/CommandCam.cpp:447-449 | a four-character string not starting with s or S is no RGB name |
| CommandCam.UpcaseAll | test/win-dshow-capture/CommandCam.cpp:505-511 | each character is upper-cased in place, length kept |
| CommandCam.CLength | test/win-dshow-capture/CommandCam.cpp:507 | strlen: the index of the first NUL, or the whole length |
| CommandCam.UpcaseIdempotent | test/win-dshow-capture/CommandCam.cpp:505-511 | upper-casing twice is upper-casing once |
| CommandCam.StrUpcase | test/win-dshow-capture/CommandCam.cpp:505-511 | the characters before the first NUL are upper-cased; the rest of the buffer is unchanged |
| CommandCam.I420IndicesInPlanes | test/win-dshow-capture/CommandCam.cpp:277-279 | for even dimensions Y is read from the luma plane, U from the next quarter and V from the quarter after it |
| CommandCam.QuarterPlanes | test/win-dshow-capture/CommandCam.cpp:273-279 | for even dimensions w·h/4 is the quarter-plane size and w·h/2 two of them |
| CommandCam.BitmapOffsetInFrame | test/win-dshow-capture/CommandCam.cpp:271-299 | every pixel written bottom-up stays inside the w × h × 3 buffer |
| CommandCam.DhtSegmentLayout | test/win-dshow-capture/CommandCam.cpp:331-415 | the spliced segment is the DHT marker, the length 0x01A2 and four Huffman tables laid out as section B.2.4.2 of ITU-T T.81 lays them out |
| CommandCam.TablePieces | test/win-dshow-capture/CommandCam.cpp:332-394 | each of the four tables is its class/id byte, its 16 counts and its values, as taken from the constant pieces |
| CommandCam.DhtSegmentLength | test/win-dshow-capture/CommandCam.cpp:331-415 | the segment is 420 bytes and its length field counts all of it but the marker |
| CommandCam.DcTablesWellFormed | test/win-dshow-capture/CommandCam.cpp:332-394 | both DC tables have 16 counts summing to their 12 values |
| CommandCam.AcTablesWellFormed | test/win-dshow-capture/CommandCam.cpp:332-394 | both AC tables have 16 counts summing to their 162 values |
| CommandCam.Append | test/win-dshow-capture/CommandCam.cpp:396-400 | the bytes are copied at the position, which advances by their count; nothing else changes |
| CommandCam.Put | test/win-dshow-capture/CommandCam.cpp:408 | one byte is stored and the position advances by one |
| CommandCam.AppendDhtSegment | test/win-dshow-capture/CommandCam.cpp:402-415 | the 420 segment bytes are written at the position; nothing else changes |
| CommandCam.AppendPieces | test/win-dshow-capture/CommandCam.cpp:404-414 | the pieces and the two class bytes are written one after the other |
| CommandCam.SkipAsWrittenNegative | test/win-dshow-capture/CommandCam.cpp:420-421 | as written, a length of 0x0090 gives a skip of -108, where 148 is meant |
| CommandCam.ImageBuffer.constructor | test/win-dshow-capture/CommandCam.cpp:418 | the buffer and its size are recorded |
| CommandCam.ImageBuffer.MjpegFix | test/win-dshow-capture/CommandCam.cpp:418-438 | a frame shorter than the skip is left alone; otherwise the frame becomes the JFIF header, the DHT segment and the bytes after the skip, in a new buffer of the summed size |

## Left out

- Colour arithmetic: the BT.601 floating-point formulas of `y_from_rgb`,
  `uv_from_rgb`, `YfromRGB` and `UVfromRGB` are a `Colour` parameter. The
  model fixes which pixels each output byte is computed from, not the float
  value.
- The libyuv conversions themselves: a wrapper call is modelled by the
  planes, strides, width and signed height it hands over. The pixel values
  it writes are not modelled.
- Canonicalisation of FourCC codes by `libyuv::CanonicalFourCC` is foreign
  code. Sessions receive an already canonical `Fourcc`.
- Operating-system services are parameters whose answers the caller
  supplies:
  - `open`, `ioctl` and `write` on v4l2loopback;
  - registry reads and shared memory on Windows;
  - `CreateProcess`;
  - the OBS video queue;
  - CoreMediaIO device and stream lists, pixel-buffer pools and the Mach
    server;
  - `mach_timebase_info`.
- Timestamps and frame pacing are not modelled: `QueryPerformanceCounter`,
  `clock_gettime`, the fps interval, `FPSCounter`, `sleep_until_next_frame`
  and `print_fps`.
- Locking of the device sets across threads is not modelled, because the
  source takes no lock.
- Python object lifetime (`__del__`, `__enter__`/`__exit__`) and the
  deprecation warnings are not modelled. `Camera.Camera.Close` records that
  `close` was forwarded.
- The descriptor that the Linux controller's scan opens and then abandons
  is not tracked, because only the chosen descriptor is recorded.
- `UnityVideoCapture.ParseInt` uses unbounded integers, so a digit string
  past 2^31 does not overflow as `int` does.
- `AkVCam.Open` and `AkVCam.SelectPicksFreeCamera` work on registry strings
  without the trailing NUL that `getStringRegistry` keeps. As written, a
  user's hint never equals a stored description and never matches the
  in-use set, so every hinted construction with cameras registered fails
  with "All cameras being used...". The model's hinted path selects the
  matching camera, which is the intended behaviour. The as-written
  behaviour is `AkVCam.HintedSelectionAsReadFails`, listed under Findings.
- Unity video capture backend:
  - `device()` (pyvirtualcam/unity_video_capture/virtual_output.h:123-125)
    is not modelled.
  - The `tmp` pointer of its `send` is never declared. It is
    modelled as the local the code evidently means.
- Frame sizes and offsets use unbounded integers. The `int32_t` and
  `uint32_t` products of `image_formats.h` and the controllers are
  assumed not to wrap.
- `CommandCam`: the BT.601/709 decode and `xround` in `yuy2_rgb` and
  `i420_rgb` are left out beyond their index maths. The static buffer of
  `fourcc2str` is a fresh sequence. Device enumeration, graph building and
  file output through DirectShow are left out.
- `DShowCapture.Flipped`: `img[::-1]` is a NumPy view. It is modelled as a
  copy, which `img.copy()` immediately makes anyway.
- `Yuv.Nv12FrameFromRgb` requires even width and height. For odd
  dimensions the source reads past the last row and column.
- `WindowsControllers.Controller.VirtualVideo` requires even width and
  height, as `Yuv.Nv12FrameFromRgb` does.
- `CommandCam.Fourcc2StrOfStr2Fourcc` requires a four-character, NUL-free,
  non-RGB name. Shorter names and the RGB names do not round-trip, because
  `str2fourcc` maps them to `BI_RGB`.
- `UnityVideoCapture.Open` states only the sender-ready condition and the
  slot. The slot choice itself is `UnityVideoCapture.SelectSlot`.
- `UnityVideoCapture.SelectSlot` and `UnityVideoCapture.Open` look a name
  hint up with the corrected comparison, `UnityVideoCapture.FindName`. As
  written, `get_name` fills a by-value copy, so every non-empty hint that
  is not an index fails with "No camera registered with this name."; this
  is `UnityVideoCapture.FindNameAsWritten`, listed under Findings. The
  same lines pass a `wchar_t` string to `parse_int`, which takes
  `char const*`, and compare a `std::wstring` with `NULL`. They are read as
  evidently meant: the hint's characters are parsed, and the `NULL` test is
  dropped.
- The Linux controller's `Context` type is not part of this model's
  source: only its use is visible, default-constructed at
  pyvirtualcam/native_linux/main.cpp:10. `LinuxController.Context.constructor`
  assumes it starts not running and with no device. The declarations in
  `native_linux/controller/controller.h` do not match the signatures
  `controller.cpp` defines, and the model follows `controller.cpp`.
- `argb_frame_size`, `gray_to_argb`, `argb_to_nv12`, `rgb_to_argb` and
  `argb_to_argb`, which the OBS Windows and Unity video capture backends
  call, are not defined in `image_formats.h`. Following its naming of
  libyuv ARGB as BGRA, they are modelled as the BGRA-named wrappers and
  frame size.

## Findings

| source | as written | input that shows it | evidently intended | confidence | as-written member | corrected member |
|---|---|---|---|---|---|---|
| pyvirtualcam/native_windows_akvcam/virtual_output.h:84 | `number_cameras < 0` lets a count of 0 through; no camera is chosen, and `_camera_info->id` is then read from an empty optional | registry size 0, no hint | a count of 0 or less is "No cameras avaliable" | not executed | AkVCam.SelectAsWrittenZeroCameras | AkVCam.SelectPicksFreeCamera |
| pyvirtualcam/native_windows_akvcam/virtual_output.h:221 | `frame[0,0]` is a comma expression, so every byte written is `frame[0]` | a 1×1 frame of bytes 1, 2, 3 | each row's 3 × width bytes copied from the frame | not executed | AkVCam.SendAsWrittenLosesFrame | AkVCam.Session.Send |
| pyvirtualcam/native_windows_akvcam/virtual_output.h:230 | `device()` returns `_device_name`, which is never assigned | any camera with a non-empty description | the selected camera's description | not executed | AkVCam.DeviceAsWrittenLosesName | AkVCam.Session.Device |
| pyvirtualcam/native_windows_obs/controller/controller.c:105 | chroma index `y * cx / 4 + x / 2` counts pairs, not bytes, so blocks collide | width 4: block (0,0)'s V and block (2,0)'s U both at byte 1 | `y / 2 * cx + x`, as in native_windows/controller/controller.cpp:105 | not executed | WindowsControllers.ChromaIndexAsWrittenOverlaps | Yuv.ChromaIndexInjective |
| pyvirtualcam/native_windows_obs/controller/controller.c:93 | luma is computed from `rgba[i*4+1]` twice, so blue is read as green | pixel (10, 20, 30, 255) | blue taken from `rgba[i*4+2]` | not executed | WindowsControllers.LumaInputAsWrittenDropsBlue | WindowsControllers.Controller.VirtualVideo |
| test/win-dshow-capture/CommandCam.cpp:420 | `(imgBuffer[4] << 8) + imgBuffer[5] + 4` on signed `char` | length bytes 0x00 0x90 give skip -108 | the unsigned length plus 4 (148) | not executed | CommandCam.SkipAsWrittenNegative | CommandCam.ImageBuffer.MjpegFix |
| pyvirtualcam/native_windows_akvcam/virtual_output.h:54-73 | `data.resize(dataSize)` keeps the terminating NUL the registry counts, so `tmpCameraDesc == *device` never holds for a hint | hint "AkVCam" with camera 1 described "AkVCam" | descriptions compared without the terminator, so the hinted camera is selected | not executed | AkVCam.HintedSelectionAsReadFails | AkVCam.SelectPicksFreeCamera |
| pyvirtualcam/unity_video_capture/virtual_output.h:26-35 | `get_name` takes its output string by value, so the caller's name stays empty and a named device is never found | hint "Unity Video Capture" registered at slot 0 | the registered name compared with the hint | not executed | UnityVideoCapture.FindNameAsWritten | UnityVideoCapture.FindName |
