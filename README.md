# Gh05t EEG core, modelled in Dafny

Gh05t is a low-cost EEG headset project. This Dafny project models the parts of it that compute.

**On the acquisition board:**
- the ADS1299 analog front-end driver, with its register configuration, its data frames and the two serial packet formats it sends;
- the Raspberry Pi Pico transmitter that scans eight electrodes through an analog multiplexer.

**On the host:**
- the BLE packet reassembly of the PyQt GUI, both as written (a list buffer, whose chunks never unpack) and with the bytes buffer of the later GUI;
- the serial-to-CSV exporter;
- the two hex-sample loggers;
- the Blinky Bird game's score state.

**The four C signal-processing routines:**
- the SDED spike detector;
- the NLMS predictor;
- the quantised kernel LMS (QKLMS) predictor;
- the variable step-size affine projection (VSS-APA) filter, with its Gauss-Jordan matrix inversion.

## How the model is organised

Most source files have one module each. Two are split:
- `Reading_EEG_Data/ads1299_main/ADS1299.cpp` becomes `Ads1299Driver` (register values), `Ads1299Data` (frames and packets) and `Ads1299Board` (the driver object). The register map of `Reading_EEG_Data/SenderCode/SenderCode.h` is `Ads1299Regs`.
- `ml-model/VSSAPA.C` becomes `MatrixInverse` (`invert_matrix`) and `VssApa` (the filter).

Four modules are shared:
- `Wrappers`: `Option`, for the `None`/`NULL` results and swallowed exceptions;
- `LittleEndian`: bytes, little-endian words and 32-bit wrap-around;
- `PyText`: Python's `str.split`, `str.strip`, `in` and `int(s, base)`;
- `CMath`: `fabs` and the dot products the C filters share.

**Where the source changes state step by step, the model does too:**
- the C routines become methods over arrays, with loop invariants;
- the driver object, the BLE worker, the loggers, the multiplexer transmitter and the game manager become classes whose methods update their fields.

**Each such method is proved against a specification function:**
- `SdedRun`, `Run`/`StepAt`, `Run`/`Predictions`, `Invert`, `ApaUpdate`/`Iteration`/`Trace`;
- `BinaryPacket`, `P2Packet`, `Activated`, `ResetRegs`, `Packets`/`Leftover`, `Readings`.

Lemmas state the properties of those functions.

**Modelling choices:**
- `double` values are modelled as reals.
- C's `exp`, `sqrt` and Python's `float()` are function parameters. Only `sqrt` carries an assumption: it is non-negative on non-negative arguments.
- The GPIO, SPI, serial, BLE, file and clock inputs are parameters too.
- The ADS1299 serial output is a byte sequence that the driver appends to.

### Behaviour kept as written

These ADS1299 routines are modelled as the code is written. Each behaviour is stated by a lemma.

- `activateChannel` passes its zero-based channel number to `alterBiasBasedOnChannelState`, which expects a one-based one. For channel `N` it therefore recomputes the bias routing of channel `N - 1` (`ActivatedRegisters`).
- `isChannelActive` reads bit 7 of the channel register. That is the power-down bit, so it answers `true` for a channel that is switched off (`DeactivatedRegisters`).
- `setAutoBiasGeneration` loops over channels 1..7 only, so channel 8's bias bits are never recomputed (`AutoBiasSkipsChannelEight`).
- `configureInternalTestSignal` does not mask the amplitude code (`TestSignalConfigured` states CONFIG2 only for in-range codes).
- `writeChannelDataAsOpenEEG_P2` sends 1023 for every negative sample: the cast to `unsigned int` after `constrain` turns negatives into large values, which the cap then limits (`P2WordScale`).

## Model

| member | source | states |
|---|---|---|
| LittleEndian.Wrap32 | Applications/Blinky_Bird/Blinky_Bird/Assets/Scripts/game_manager.cs:33 | the wrapped sum lies in the 32-bit signed range and differs from the exact sum by a multiple of 2^32 |
| LittleEndian.Wrap32Identity | Applications/Blinky_Bird/Blinky_Bird/Assets/Scripts/game_manager.cs:33 | a value already in the 32-bit range is not changed by wrapping |
| LittleEndian.LeValueOfBytes | eeg_gui_PyQt/utils/ble_handler.py:125 | reading back the low `n` little-endian bytes of a value below 256^n gives the value |
| LittleEndian.LeBytesOfValue | eeg_gui_PyQt/utils/ble_handler.py:125 | writing the unsigned value of a byte sequence gives the same bytes |
| LittleEndian.SignedLe32 | eeg_gui_PyQt/utils/ble_handler.py:125 | `'<i'` gives a 32-bit signed integer congruent to the bytes' unsigned value modulo 2^32 |
| LittleEndian.Int32RoundTrip | eeg_gui_PyQt/utils/ble_handler.py:125 | decoding the four bytes of a 32-bit integer returns the integer |
| LittleEndian.BytesRoundTrip | eeg_gui_PyQt/utils/ble_handler.py:125 | encoding the decoded value of four bytes returns the bytes |
| BleHandler.DecodeWords | eeg_gui_PyQt/utils/ble_handler.py:125 | one 32-bit signed value per four bytes |
| BleHandler.DecodeEncodeWords | eeg_gui_PyQt/utils/ble_handler.py:125 | decoding the encoding of 32-bit values gives the values back |
| BleHandler.EncodeDecodeWords | eeg_gui_PyQt/utils/ble_handler.py:125 | encoding the decoding of a multiple of four bytes gives the bytes back |
| BleHandler.Unpack | eeg_gui_PyQt/utils/ble_handler.py:125-127 | 36 bytes unpack to an unsigned 32-bit timestamp and eight signed 32-bit channel values |
| BleHandler.ProcessBleData | eeg_gui_PyQt/utils/ble_handler.py:120-136 | for a bytes-like argument, a packet is produced exactly when the chunk has 36 bytes (short chunks are reported, long ones raise and are caught), and it re-encodes to those bytes |
| BleHandler.UnpackEncodes | eeg_gui_PyQt/utils/ble_handler.py:125 | the unpacked packet re-encodes to the 36 bytes it came from |
| BleHandler.ProcessEncoded | eeg_gui_PyQt/utils/ble_handler.py:120-127 | every well-formed packet survives encoding followed by `process_ble_data` |
| BleHandler.Packets | eeg_gui_PyQt/utils/ble_handler.py:111-118 | with a bytes buffer, one packet per complete 36-byte chunk |
| BleHandler.Leftover | eeg_gui_PyQt/utils/ble_handler.py:111-113 | fewer than 36 bytes remain buffered |
| BleHandler.PacketsConserveBytes | eeg_gui_PyQt/utils/ble_handler.py:107-118 | no byte is lost or reordered: the emitted packets re-encode to the consumed bytes and the leftover is the rest |
| BleHandler.PacketsAppend | eeg_gui_PyQt/utils/ble_handler.py:107-118 | the packets of a concatenation are those of the first part, then those of its leftover joined with the second part |
| BleHandler.ProcessListData | eeg_gui_PyQt/utils/ble_handler.py:120-136 | for the list argument that `handle_notification` passes, no packet is ever produced: `struct.unpack` raises on a list, and the caught error is reported exactly when the chunk passes the 36-byte length test |
| BleHandler.ChunkErrors | eeg_gui_PyQt/utils/ble_handler.py:111-136 | one processing-error status per complete 36-byte chunk of the buffer |
| BleHandler.NotificationSplit | eeg_gui_PyQt/utils/ble_handler.py:107-118 | two notifications emit the same packets and leave the same buffer as one notification carrying both |
| BleHandler.BleWorker.constructor | eeg_gui_PyQt/utils/ble_handler.py:94-99 | the buffer starts empty, and no packet and no status has been emitted |
| BleHandler.BleWorker.HandleNotification | eeg_gui_PyQt/utils/ble_handler.py:107-118 | with a bytes buffer: after a notification the buffer is the leftover of old buffer plus data, the emitted packets are extended by exactly the packets of that stream, and no status is sent |
| BleHandler.BleWorker.HandleNotificationAsWritten | eeg_gui_PyQt/utils/ble_handler.py:107-118 | with the list buffer as written: the buffer ends as the same leftover, nothing is emitted on `data_received`, and one error status is sent per complete chunk |
| BleHandler.OneChunkNotification | eeg_gui_PyQt/utils/ble_handler.py:107-136 | one 36-byte notification on a fresh worker: as written no packet and one error; with a bytes buffer one packet and no error |
| PyText.TokenPrefix | eeg_gui_PyQt/ESP32_data_export.py:14 | the longest whitespace-free prefix, followed by whitespace when shorter than the string |
| PyText.Split | eeg_gui_PyQt/ESP32_data_export.py:14 | `str.split()` yields non-empty, whitespace-free tokens |
| PyText.SplitJoinSpaced | eeg_gui_PyQt/ESP32_data_export.py:14 | splitting tokens joined by single spaces gives the tokens back |
| PyText.StripLeft | eeg_gui_PyQt/ESP32_data_export.py:14 | `lstrip` keeps a suffix that does not start with whitespace |
| PyText.StripLeftDropsSpace | eeg_gui_PyQt/ESP32_data_export.py:14 | `lstrip` removes only whitespace |
| PyText.StripRight | eeg_gui_PyQt/ESP32_data_export.py:14 | `rstrip` keeps a prefix that does not end with whitespace |
| PyText.StripRightDropsSpace | eeg_gui_PyQt/ESP32_data_export.py:14 | `rstrip` removes only whitespace |
| PyText.ContainsOccurs | eeg_gui_PyQt/ESP32_data_export.py:13 | `sub in s` holds exactly when `sub` occurs at some position of `s` |
| PyText.FormatNatValue | Reading_EEG_Data/code.py:19 | the digits written for `n` are valid digits of the base and denote `n` |
| PyText.ParseNonNegative | Reading_EEG_Data/code.py:19 | `int(s, base)` reads back the digits of any natural number |
| PyText.ParseNegative | eeg_gui_PyQt/ESP32_data_export.py:16 | `int` reads back a minus sign followed by digits as the negative number |
| PyText.FormatInt | eeg_gui_PyQt/ESP32_data_export.py:16 | `str(n)` is a non-empty token without whitespace |
| PyText.FormatIntParses | eeg_gui_PyQt/ESP32_data_export.py:16 | `int(str(n)) == n` for every integer |
| Esp32DataExport.ParseInts | eeg_gui_PyQt/ESP32_data_export.py:16 | the converted list has one value per token |
| Esp32DataExport.ParseIntsFormatted | eeg_gui_PyQt/ESP32_data_export.py:16 | integers written out with `str` convert back to the same values, one per token and in order |
| Esp32DataExport.ParseParts | eeg_gui_PyQt/ESP32_data_export.py:15-17 | a reading always carries eight channel values |
| Esp32DataExport.ParsePartsValues | eeg_gui_PyQt/ESP32_data_export.py:14-20 | the split line converts exactly when it has at least twelve fields, field 1 is a float and fields 4..11 (the slice `parts[4..12]`) are integers; the reading then holds those values |
| Esp32DataExport.ParseSerialData | eeg_gui_PyQt/ESP32_data_export.py:9-20 | a reading is returned exactly when both markers occur and the stripped, split line converts; otherwise `None` |
| Esp32DataExport.CsvRow | eeg_gui_PyQt/ESP32_data_export.py:17 | the row is the timestamp followed by the channel values in order |
| Esp32DataExport.RowForLine | eeg_gui_PyQt/ESP32_data_export.py:31-35 | a row is written exactly when the stripped line parses, and it has as many columns as the header |
| Esp32DataExport.FormattedLineMarkers | eeg_gui_PyQt/ESP32_data_export.py:13 | a line in the sender's layout contains both markers |
| Esp32DataExport.FormattedLineTokens | eeg_gui_PyQt/ESP32_data_export.py:14 | stripping and splitting such a line gives back its tokens |
| Esp32DataExport.ParseFormattedLine | eeg_gui_PyQt/ESP32_data_export.py:9-17 | a line in the sender's layout parses back to its timestamp and its eight channel values |
| Esp32DataExport.PartsParse | eeg_gui_PyQt/ESP32_data_export.py:15-17 | the sender's tokens convert to the timestamp and the channel values |
| HexLogger.ScaleValue | Reading_EEG_Data/code.py:24-26 | the scaled value times the scale factor is the original value |
| HexLogger.HexToDecimal | Reading_EEG_Data/code.py:16-22 | integer 0 exactly when `int(s, 16)` fails, otherwise the parsed value divided by the scale factor |
| HexLogger.HexRoundTrip | Reading_EEG_Data/code.py:16-22 | hex digits of `n` convert to `n / scale_factor` |
| HexLogger.FirstEightDecimals | Reading_EEG_Data/code.py:66 | eight values, each the conversion of the token at the same position |
| HexLogger.Row | Reading_EEG_Data/code.py:70 | 25 columns as in the header: the index, the eight samples, fifteen zeros and the timestamp |
| HexLogger.Logger.constructor | Reading_EEG_Data/code.py:54 | no rows written and the index at 0 |
| HexLogger.Logger.HandleLine | Reading_EEG_Data/code.py:56-75 | a line of eight or more tokens appends its row and advances the index; a shorter line changes nothing; every row carries its own position |
| EyesClosedLogger.Row | High_Performance/Recorded_data/eeg_data_to_file.py:86 | eleven columns as in the header: index, eight samples, timestamp, eyes-closed flag |
| EyesClosedLogger.Recorder.constructor | High_Performance/Recorded_data/eeg_data_to_file.py:10 | the flag starts at 0, the listener runs, and nothing has been written |
| EyesClosedLogger.Recorder.OnPress | High_Performance/Recorded_data/eeg_data_to_file.py:12-19 | pressing Tab sets the flag to 1; other keys leave it |
| EyesClosedLogger.Recorder.OnRelease | High_Performance/Recorded_data/eeg_data_to_file.py:21-27 | releasing Tab resets the flag to 0; the listener stops exactly on Esc |
| EyesClosedLogger.Recorder.Deliver | High_Performance/Recorded_data/eeg_data_to_file.py:30-31 | events act only while the listener runs, which it does until Esc is released, and the flag stays 0 or 1 |
| EyesClosedLogger.Recorder.HandleLine | High_Performance/Recorded_data/eeg_data_to_file.py:74-91 | a line of eight or more tokens appends a row (samples scaled by 1000, current flag) and advances the index; a shorter line changes nothing |
| AnalogMux.ThreeBinaryDigits | rpi_low_cost/code.py:55-58 | the padded binary string has three characters |
| AnalogMux.PaddedDigitIsBit | rpi_low_cost/code.py:55-63 | the i-th character from the right is `'1'` exactly when bit i is set, and is always `'0'` or `'1'` |
| AnalogMux.LowBits | rpi_low_cost/code.py:62-63 | the three select bits recompose the value modulo 8 |
| AnalogMux.ChannelKeyFormat | rpi_low_cost/code.py:68 | the key is `CH` followed by the decimal channel number |
| AnalogMux.ChannelKeysDistinct | rpi_low_cost/code.py:68 | the eight keys are distinct |
| AnalogMux.Readings | rpi_low_cost/code.py:66-68 | the dictionary maps `CHi` to reading i for each channel written |
| AnalogMux.ReadingsKeys | rpi_low_cost/code.py:66-68 | the dictionary has no other keys, and one per channel |
| AnalogMux.ReadingsAsWritten | rpi_low_cost/code.py:65-71 | as written, `CH0` holds the input selected on entry and `CHi` holds input i - 1 |
| AnalogMux.ReadingsShiftedByOne | rpi_low_cost/code.py:65-71 | concrete case: `CH1` holds input 0, not input 1 |
| AnalogMux.AnalogDataTransmitter.SelectedCode | rpi_low_cost/code.py:29-33 | the multiplexer input chosen by the three lines is below 8 |
| AnalogMux.AnalogDataTransmitter.constructor | rpi_low_cost/code.py:29-33 | three output lines, all low, selecting input 0 |
| AnalogMux.AnalogDataTransmitter.SetSelectLines | rpi_low_cost/code.py:53-63 | line i carries bit i of the value, so the multiplexer selects the value modulo 8 |
| AnalogMux.AnalogDataTransmitter.GetData | rpi_low_cost/code.py:65-71 | the dictionary is the as-written readings, and input 7 is left selected |
| AnalogMux.AnalogDataTransmitter.ReadThenSelect | rpi_low_cost/code.py:68-69 | the reading is of the input selected before the lines move, and afterwards input i is selected |
| AnalogMux.AnalogDataTransmitter.GetDataSelectingFirst | rpi_low_cost/code.py:65-71 | with the lines set before each reading, `CHi` holds input i |
| BlinkyBird.Max | Applications/Blinky_Bird/Blinky_Bird/Assets/Scripts/game_manager.cs:13 | the larger of the two arguments |
| BlinkyBird.ScoreAfterAdd | Applications/Blinky_Bird/Blinky_Bird/Assets/Scripts/game_manager.cs:31-34 | the new score is a non-negative 32-bit value: 0, or the sum modulo 2^32 |
| BlinkyBird.ScoreAfterAddExact | Applications/Blinky_Bird/Blinky_Bird/Assets/Scripts/game_manager.cs:31-34 | without overflow the score is the plain sum, floored at 0 |
| BlinkyBird.ScoreAfterAddOverflow | Applications/Blinky_Bird/Blinky_Bird/Assets/Scripts/game_manager.cs:31-34 | one point added to the largest score wraps negative and is stored as 0 |
| BlinkyBird.TimeScaleFor | Applications/Blinky_Bird/Blinky_Bird/Assets/Scripts/game_manager.cs:27 | 0 exactly when paused, 1 exactly when not |
| BlinkyBird.GameManager.constructor | Applications/Blinky_Bird/Blinky_Bird/Assets/Scripts/game_manager.cs:7-9 | scores 0, not paused, time running |
| BlinkyBird.GameManager.SetScore | Applications/Blinky_Bird/Blinky_Bird/Assets/Scripts/game_manager.cs:13 | negative scores are stored as 0; nothing else changes |
| BlinkyBird.GameManager.SetHighscore | Applications/Blinky_Bird/Blinky_Bird/Assets/Scripts/game_manager.cs:18 | negative best scores are stored as 0; nothing else changes |
| BlinkyBird.GameManager.SetIsPaused | Applications/Blinky_Bird/Blinky_Bird/Assets/Scripts/game_manager.cs:24-28 | the flag is set and the time scale follows it; scores unchanged |
| BlinkyBird.GameManager.AddScore | Applications/Blinky_Bird/Blinky_Bird/Assets/Scripts/game_manager.cs:31-35 | the score moves by the amount (wrapped, floored at 0), the best score never decreases and is at least the score |
| BlinkyBird.GameManager.ResetGame | Applications/Blinky_Bird/Blinky_Bird/Assets/Scripts/game_manager.cs:37-41 | score 0, game resumed, best score kept |
| BlinkyBird.GameManager.TogglePause | Applications/Blinky_Bird/Blinky_Bird/Assets/Scripts/game_manager.cs:43-46 | the pause flag flips and the time scale follows; scores unchanged |
| CMath.Abs | Machine_Learning/SDED.C:18 | `fabs` is never negative |
| CMath.AbsSymmetric | Machine_Learning/QKLMS.C:125-128 | the distance between two points does not depend on their order |
| CMath.DotSelfNonNegative | ml-model/NLMS.C:105 | the input power `x·x` is never negative |
| CMath.DotSymmetric | ml-model/VSSAPA.C:178-179 | the product sum does not depend on the order of its arguments |
| CMath.DotSingle | ml-model/VSSAPA.C:178-179 | the sum of one product is that product |
| Sded.ApplySded | Machine_Learning/SDED.C:15-20 | the spike flag is 0 or 1, and 1 exactly when the non-negative measure exceeds `delta` |
| Sded.MeasureScaled | Machine_Learning/SDED.C:17-18 | the measure is the sample's distance from the old baseline scaled by `|1 - alpha|` |
| Sded.ThresholdIsStrict | Machine_Learning/SDED.C:19 | a threshold equal to the measure flags no spike |
| Sded.BaselineBetween | Machine_Learning/SDED.C:17 | with `alpha` in [0, 1] the new baseline lies between the old baseline and the sample |
| Sded.SdedRun | Machine_Learning/SDED.C:25-45 | index 0 is all zeros, and each later index is one step from the previous baseline |
| Sded.SdedRunIgnoresFirst | Machine_Learning/SDED.C:27-39 | the first sample is never read: runs differing only there agree |
| Sded.BaselineBounded | Machine_Learning/SDED.C:37-39 | samples (after the first) bounded by `b` keep every baseline within `b` |
| Sded.ApplySdedFull | Machine_Learning/SDED.C:25-45 | the first `n` entries of the three outputs are the run over the first `n` samples; the rest are untouched |
| Nlms.NormalisedStep | ml-model/NLMS.C:109 | the step times the regularised power is `mu`, so it has the sign of `mu` |
| Nlms.NlmsUpdate | ml-model/NLMS.C:98-113 | the error is the target minus the prediction, and there is one new weight per weight |
| Nlms.ZeroInputKeepsWeights | ml-model/NLMS.C:98-113 | an all-zero input predicts 0, its error is the target, and the weights stay |
| Nlms.Regressor | ml-model/NLMS.C:131-150 | the regressor of step k has M entries |
| Nlms.Weights | ml-model/NLMS.C:144-167 | the weights in use have M entries |
| Nlms.Run | ml-model/NLMS.C:149-168 | k steps, each leaving M weights |
| Nlms.RunIsSteps | ml-model/NLMS.C:149-168 | entry j of the run is step j, and it leaves the weights step j + 1 uses |
| Nlms.RunListsSteps | ml-model/NLMS.C:149-168 | every entry of the run is its step |
| Nlms.FirstStep | ml-model/NLMS.C:133-154 | step 0 sees only padding zeros: it predicts 0, its error is `d[0]`, and the weights stay zero |
| Nlms.StepIsCausal | ml-model/NLMS.C:141-150 | step k reads no input sample at or after index k |
| Nlms.RegressorsAgree | ml-model/NLMS.C:141-150 | inputs agreeing before k give the same regressor at k |
| Nlms.WeightsAreCausal | ml-model/NLMS.C:144-167 | inputs agreeing before k give the same weights at k |
| Nlms.PaddedWindow | ml-model/NLMS.C:128-150 | the window of the padded input at k is the regressor of step k, and it stays inside the padded array |
| Nlms.DotAndPower | ml-model/NLMS.C:101-106 | the loop computes `w·x` and `x·x` over the regressor |
| Nlms.MoveWeights | ml-model/NLMS.C:110-112 | each new weight moves along its input by step times error; the rest of the buffer is untouched |
| Nlms.ApplyNlmsFilter | ml-model/NLMS.C:98-113 | the outputs and new weights are those of `NlmsUpdate` on the window |
| Nlms.PadInput | ml-model/NLMS.C:131-140 | M zeros followed by the N samples |
| Nlms.RecordWeights | ml-model/NLMS.C:159-163 | row k of the history receives the new weights; every other entry is kept |
| Nlms.CopyWeights | ml-model/NLMS.C:165-167 | `w` becomes `w_new` |
| Nlms.FilterStep | ml-model/NLMS.C:149-168 | one pass stores step k's outputs at index k (and its weights in row k when there is a history), and copies the new weights into `w` |
| Nlms.RunSteps | ml-model/NLMS.C:145-168 | after the sample loop, the histories record every step of the run, and every slot outside them is kept |
| Nlms.NlmsFilterFull | ml-model/NLMS.C:125-172 | index k of every history holds step k of the run, and row k of `w_hist` its post-update weights; slots from `n` on, and the columns of `w_hist` from `M` on, are unchanged |
| Qklms.KernelSymmetric | Machine_Learning/QKLMS.C:88-90 | the Gaussian kernel does not depend on the order of its points |
| Qklms.PredictLinear | Machine_Learning/QKLMS.C:115-120 | changing coefficient j by δ moves every prediction by δ times centre j's kernel |
| Qklms.PredictAppend | Machine_Learning/QKLMS.C:115-120 | a new centre adds its coefficient times its kernel to every prediction |
| Qklms.Nearest | Machine_Learning/QKLMS.C:125-133 | the index of a centre in the codebook |
| Qklms.NearestIsNearest | Machine_Learning/QKLMS.C:125-133 | no centre is nearer than the chosen one, and every earlier centre is strictly further |
| Qklms.Update | Machine_Learning/QKLMS.C:134-142 | the codebook stays non-empty and has one coefficient per centre |
| Qklms.UpdateNear | Machine_Learning/QKLMS.C:134-136 | a sample within `epsilon` of some centre only adds the step to the nearest centre's coefficient |
| Qklms.UpdateFar | Machine_Learning/QKLMS.C:137-142 | a sample further than `epsilon` from every centre becomes a new centre with the step as its coefficient |
| Qklms.AppendKeepsSeparated | Machine_Learning/QKLMS.C:137-142 | adding a centre far from all others keeps centres pairwise more than `epsilon` apart |
| Qklms.UpdateKeepsSeparated | Machine_Learning/QKLMS.C:134-142 | an update keeps centres pairwise more than `epsilon` apart |
| Qklms.Run | Machine_Learning/QKLMS.C:108-143 | the model after the first k samples is well formed |
| Qklms.Learn | Machine_Learning/QKLMS.C:115-142 | learning a sample keeps the model well formed |
| Qklms.Predictions | Machine_Learning/QKLMS.C:112-120 | one prediction per sample seen |
| Qklms.PredictionsAt | Machine_Learning/QKLMS.C:112-120 | entry i of the predictions is the model's prediction at sample i |
| Qklms.FirstPredictionSeesItsTarget | Machine_Learning/QKLMS.C:109-112 | `y_hat[0]` is `eta·d[0]` times the kernel of sample 0 with itself: the first prediction has already learned its own target |
| Qklms.RunStep | Machine_Learning/QKLMS.C:114-143 | prediction i is made by the model of samples 0..i-1, which then learns sample i |
| Qklms.RunSize | Machine_Learning/QKLMS.C:139-141 | the codebook never holds more centres than samples seen |
| Qklms.RunSeparated | Machine_Learning/QKLMS.C:134-142 | centres are always pairwise more than `epsilon` apart |
| Qklms.CentresAreSamples | Machine_Learning/QKLMS.C:106-141 | every centre is one of the input samples seen |
| Qklms.LearnCodebook | Machine_Learning/QKLMS.C:134-142 | learning either keeps the codebook or appends the sample |
| Qklms.PredictAt | Machine_Learning/QKLMS.C:115-120 | the loop computes the codebook's prediction at `x` |
| Qklms.NearestAt | Machine_Learning/QKLMS.C:125-133 | the loop finds `Nearest` and its distance |
| Qklms.LearnSample | Machine_Learning/QKLMS.C:115-142 | `y_hat[i]` gets the current prediction and the arrays then hold the learned model |
| Qklms.Seed | Machine_Learning/QKLMS.C:106-112 | the arrays hold the one-centre model and `y_hat[0]` its prediction |
| Qklms.Advance | Machine_Learning/QKLMS.C:114-143 | one pass of the sample loop carries the learned state from i to i + 1 samples |
| Qklms.QklmsFilterFull | Machine_Learning/QKLMS.C:103-144 | the returned count and the filled prefixes are the model learned from all samples (at most n centres), and `y_hat` holds every prediction |
| Qklms.PairSamples | Machine_Learning/QKLMS.C:163-180 | recordings of fewer than two samples are skipped; otherwise input j is sample j and target j is sample j + 1 |
| MatrixInverse.Rows | ml-model/VSSAPA.C:86-91 | the array read as a matrix, entry by entry |
| MatrixInverse.Augment | ml-model/VSSAPA.C:96-104 | `[A | I]` is n × 2n |
| MatrixInverse.PivotStep | ml-model/VSSAPA.C:112-123 | one elimination pass keeps the n × 2n shape |
| MatrixInverse.GaussJordan | ml-model/VSSAPA.C:105-124 | a successful elimination keeps the n × 2n shape |
| MatrixInverse.Invert | ml-model/VSSAPA.C:91-133 | a successful inversion is n × n |
| MatrixInverse.IdentityInverts | ml-model/VSSAPA.C:91-133 | the identity inverts to itself |
| MatrixInverse.OneByOne | ml-model/VSSAPA.C:106-128 | `[a]` inverts to `[1/a]` unless `|a|` is below 1e-12 |
| MatrixInverse.SmallFirstPivotFails | ml-model/VSSAPA.C:107-111 | a first pivot below the tolerance fails the inversion |
| MatrixInverse.SwapReportedSingular | ml-model/VSSAPA.C:105-111 | without row exchange the invertible swap matrix is reported singular |
| MatrixInverse.PivotStepReduces | ml-model/VSSAPA.C:112-123 | a pass on pivot i makes column i a unit column and keeps the earlier unit columns |
| MatrixInverse.GaussJordanReduces | ml-model/VSSAPA.C:105-124 | a successful elimination reduces the left half to the identity |
| MatrixInverse.InvertReducesLeftHalf | ml-model/VSSAPA.C:91-133 | when inversion succeeds, the left half of the eliminated `[A | I]` is the identity and the result is its right half |
| MatrixInverse.InvertMatrix | ml-model/VSSAPA.C:91-133 | returns 1 exactly when `Invert` succeeds, leaving its result in `A_inv`; returns 0 leaving `A_inv` untouched otherwise |
| MatrixInverse.BuildAugmented | ml-model/VSSAPA.C:96-104 | the buffer holds `[A | I]` |
| MatrixInverse.ScaleRowInPlace | ml-model/VSSAPA.C:112-115 | row i is divided by the pivot; the other rows are kept |
| MatrixInverse.EliminateRowInPlace | ml-model/VSSAPA.C:119-122 | row k loses `factor` times row i; the other rows are kept |
| MatrixInverse.EliminateOthers | ml-model/VSSAPA.C:116-123 | column i is cleared in every other row |
| MatrixInverse.Extract | ml-model/VSSAPA.C:125-130 | `A_inv` receives the right half |
| VssApa.Column | ml-model/VSSAPA.C:143-144 | column p of the row-major matrix |
| VssApa.ApaUpdate | ml-model/VSSAPA.C:157-225 | P outputs and P errors; new weights exist exactly when the regularised Gram matrix inverts |
| VssApa.GramSymmetric | ml-model/VSSAPA.C:173-187 | `XᵀX + δI` is symmetric |
| VssApa.ErrorsComplementOutputs | ml-model/VSSAPA.C:161-171 | output plus error is the target, entry by entry |
| VssApa.SingleProjectionIsNormalisedLms | ml-model/VSSAPA.C:157-225 | with projection order 1 the update is regularised normalised LMS: `w + mu·e·x/(x·x + δ)` |
| VssApa.GramOfOneColumn | ml-model/VSSAPA.C:173-187 | the Gram matrix of one column is `[[x·x + δ]]` |
| VssApa.SingleProjectionWeight | ml-model/VSSAPA.C:198-219 | the per-weight form of the order-1 update |
| VssApa.Iterations | ml-model/VSSAPA.C:262-263 | every counted block fits inside the input |
| VssApa.BlockInput | ml-model/VSSAPA.C:276-286 | the block matrix is M × P |
| VssApa.BlockTargets | ml-model/VSSAPA.C:288-293 | P targets per block |
| VssApa.Energy | ml-model/VSSAPA.C:313-317 | the error energy is never negative |
| VssApa.Clamp | ml-model/VSSAPA.C:326-327 | the step is in `[mu_min, mu_max]` when that interval is not empty, unchanged when already inside, and `mu_max` when the bounds are crossed |
| VssApa.Iteration | ml-model/VSSAPA.C:275-341 | the carried weights are the recorded ones, and the step size stays in `[mu_min, mu_max]` |
| VssApa.Trace | ml-model/VSSAPA.C:271-341 | one record per block so far, each step size within `[mu_min, mu_max]` |
| VssApa.BlockColumnsAreWindows | ml-model/VSSAPA.C:278-286 | column q of block k is the M samples ending at `k - q` |
| VssApa.IterationPredicts | ml-model/VSSAPA.C:300-303 | a block's prediction is the window ending at its index against the current weights, and its target is `d[k + horizon]` |
| VssApa.TraceRecord | ml-model/VSSAPA.C:300-328 | the record of block j is the one `Iteration` produces from trace j |
| VssApa.FirstFailureAdoptsUninitialised | ml-model/VSSAPA.C:190-335 | if the first block's inversion fails, the never-initialised `w_new` becomes the weights |
| VssApa.LaterFailureKeepsWeights | ml-model/VSSAPA.C:190-335 | from the second block on, a failed inversion leaves the weights as they were |
| VssApa.ColumnDotVector | ml-model/VSSAPA.C:162-167 | the loop computes column p of X against `v` |
| VssApa.ColumnDotColumn | ml-model/VSSAPA.C:177-180 | the loop computes column p against column q |
| VssApa.RowDotVector | ml-model/VSSAPA.C:200-205 | the loop computes row r against `v` |
| VssApa.BuildGram | ml-model/VSSAPA.C:173-187 | the fresh buffer holds `XᵀX + δI` |
| VssApa.FillGramRow | ml-model/VSSAPA.C:176-186 | row p of the Gram matrix is filled; the other rows are kept |
| VssApa.ComputeOutputs | ml-model/VSSAPA.C:161-167 | `y_vec = Xᵀw` |
| VssApa.ComputeErrors | ml-model/VSSAPA.C:168-171 | `e_vec = d_vec - y_vec` |
| VssApa.MatVecInto | ml-model/VSSAPA.C:198-214 | the fresh vector is the matrix times `v` |
| VssApa.MoveWeights | ml-model/VSSAPA.C:198-219 | `w_new = w + mu·X·(A⁻¹e)` |
| VssApa.ApplyVssApaFilter | ml-model/VSSAPA.C:157-225 | outputs, errors and (on successful inversion) new weights are those of `ApaUpdate`; on failure `w_new` is untouched |
| VssApa.BuildBlockInput | ml-model/VSSAPA.C:276-286 | the buffer holds the block matrix |
| VssApa.BuildTargets | ml-model/VSSAPA.C:288-293 | the buffer holds the block targets |
| VssApa.EnergyOf | ml-model/VSSAPA.C:313-317 | the loop computes the error energy |
| VssApa.CopyRow | ml-model/VSSAPA.C:304-311 | row j of a history receives the vector; every other entry is kept |
| VssApa.CopyWeights | ml-model/VSSAPA.C:332-335 | `w` becomes `w_new` |
| VssApa.AdaptStep | ml-model/VSSAPA.C:318-330 | the smoothed energy and the clamped momentum step are those of the specification |
| VssApa.ComputeBlock | ml-model/VSSAPA.C:276-300 | the block's outputs, errors and weights are those of `ApaUpdate` on the block |
| VssApa.RecordBlock | ml-model/VSSAPA.C:302-311 | prediction, weight row and error row j are recorded; every other entry is kept |
| VssApa.FilterAndAdapt | ml-model/VSSAPA.C:276-330 | the computing half of a block produces `Iteration`'s outcome |
| VssApa.FilterBlock | ml-model/VSSAPA.C:275-341 | one block pass records `Iteration`'s record at index j and carries its state |
| VssApa.StoreBlock | ml-model/VSSAPA.C:275-341 | one block pass extends the stored records by the block's record |
| VssApa.AdvanceTrace | ml-model/VSSAPA.C:275-341 | one block pass takes trace j to trace j + 1, in the arrays and the buffers |
| VssApa.RunBlocks | ml-model/VSSAPA.C:275-341 | after the loop every record of the full trace is stored |
| VssApa.VssApaFilterFull | ml-model/VSSAPA.C:257-345 | every block's prediction, weights, step size and errors are the full trace's records |
| Ads1299Regs.ChannelRegister | Reading_EEG_Data/SenderCode/SenderCode.h:54-61 | channel n's setting register is `CH1SET + n - 1`, within the mirror |
| Ads1299Regs.RegistersFitMirror | Reading_EEG_Data/SenderCode/SenderCode.h:37-72 | the 24 register addresses are 0x00..0x17 in order, one mirror entry each |
| Ads1299Regs.ChannelCodesWithinMasks | Reading_EEG_Data/SenderCode/SenderCode.h:75-86 | every gain and input code fits the field `activateChannel` masks it into |
| Ads1299Regs.SettingCodesWithinMasks | Reading_EEG_Data/SenderCode/SenderCode.h:89-104 | every lead-off and test-signal code fits its field and differs from the no-change sentinel |
| Ads1299Regs.CodesDistinct | Reading_EEG_Data/SenderCode/SenderCode.h:105-114 | the side codes, on/off codes and packet markers are distinct |
| Ads1299Driver.SetBit | Reading_EEG_Data/ads1299_main/ADS1299.cpp:168 | `bitSet`: bit k set, every other bit kept |
| Ads1299Driver.ClearBit | Reading_EEG_Data/ads1299_main/ADS1299.cpp:156 | `bitClear`: bit k clear, every other bit kept |
| Ads1299Driver.NoBitSetIsZero | Reading_EEG_Data/ads1299_main/ADS1299.cpp:193-199 | a byte with no bit set is zero |
| Ads1299Driver.Constrain | Reading_EEG_Data/ads1299_main/ADS1299.cpp:114 | `constrain` lands inside the bounds and keeps values already inside |
| Ads1299Driver.ZeroRef | Reading_EEG_Data/ads1299_main/ADS1299.cpp:114 | the zero-based channel is below 8, and is `N - 1` for N in 1..8 |
| Ads1299Driver.WithBit | Reading_EEG_Data/ads1299_main/ADS1299.cpp:143-206 | one bit of one register changed, all else kept |
| Ads1299Driver.BiasDeactivated | Reading_EEG_Data/ads1299_main/ADS1299.cpp:143-158 | the channel's bit is cleared in both bias registers; every other bit and register is kept |
| Ads1299Driver.BiasActivated | Reading_EEG_Data/ads1299_main/ADS1299.cpp:160-171 | the channel's bit is set in BIAS_SENSP, and in BIAS_SENSN when negative inputs are used; all else kept |
| Ads1299Driver.BiasAltered | Reading_EEG_Data/ads1299_main/ADS1299.cpp:131-141 | the channel is routed into the bias exactly when automatic bias is on and the channel reads as active; all else kept |
| Ads1299Driver.ChannelConfig | Reading_EEG_Data/ads1299_main/ADS1299.cpp:83-95 | powered up, gain and input codes in their fields, SRB2 bit as configured |
| Ads1299Driver.PoweredDown | Reading_EEG_Data/ads1299_main/ADS1299.cpp:62-75 | power-down bit set, SRB2 cleared when negative inputs are used, other fields kept |
| Ads1299Driver.Srb1Setting | Reading_EEG_Data/ads1299_main/ADS1299.cpp:226-232 | MISC1 bit 5 says whether SRB1 is used, every other bit is zero |
| Ads1299Driver.Deactivated | Reading_EEG_Data/ads1299_main/ADS1299.cpp:62-79 | channels outside 1..8 leave every register alone |
| Ads1299Driver.Activated | Reading_EEG_Data/ads1299_main/ADS1299.cpp:83-109 | channels outside 1..8 leave every register alone |
| Ads1299Driver.LeadOffChanged | Reading_EEG_Data/ads1299_main/ADS1299.cpp:173-206 | for N in 1..8 bit N - 1 of the chosen lead-off side registers is set (ON) or cleared (OFF), other sides and registers kept; other N change nothing |
| Ads1299Driver.LeadOffConfigured | Reading_EEG_Data/ads1299_main/ADS1299.cpp:208-224 | LOFF keeps its high nibble and takes the masked amplitude and frequency codes; nothing else changes |
| Ads1299Driver.TestSignalConfigured | Reading_EEG_Data/ads1299_main/ADS1299.cpp:235-243 | CONFIG2 has its fixed bits set and, for in-range codes, the amplitude and frequency fields (a no-change code keeps the current field) |
| Ads1299Driver.AutoBiased | Reading_EEG_Data/ads1299_main/ADS1299.cpp:121-128 | only the two bias registers change |
| Ads1299Driver.ActivatedRegisters | Reading_EEG_Data/ads1299_main/ADS1299.cpp:83-109 | the channel register holds the requested setting, MISC1 the SRB1 setting and CONFIG3 the bias setup; for N ≥ 2 channel N's bias bits are kept and channel N - 1's are recomputed, for N = 1 channel 1 (just powered up, so read as inactive) loses its bias bits; no other bias bit and no other register changes |
| Ads1299Driver.DeactivatedRegisters | Reading_EEG_Data/ads1299_main/ADS1299.cpp:62-119 | the channel is powered down, then reads as active; with automatic bias on it is routed to the bias; no other register changes |
| Ads1299Driver.AutoBiasedRouting | Reading_EEG_Data/ads1299_main/ADS1299.cpp:121-141 | after recomputing channels 1..k, each of them is routed exactly when bias is on and it reads as active; higher channels are kept |
| Ads1299Driver.AutoBiasSkipsChannelEight | Reading_EEG_Data/ads1299_main/ADS1299.cpp:125-127 | channel 8's bias bits are never recomputed |
| Ads1299Driver.ResetChannelsPowerDown | Reading_EEG_Data/ads1299_main/ADS1299.cpp:51-54 | each channel the reset loop has passed is powered down |
| Ads1299Driver.ResetStepLeadOff | Reading_EEG_Data/ads1299_main/ADS1299.cpp:52-53 | one pass clears that channel's lead-off bits and keeps the others |
| Ads1299Driver.ResetChannelsLeadOff | Reading_EEG_Data/ads1299_main/ADS1299.cpp:51-54 | each channel the reset loop has passed has lead-off detection off on both sides |
| Ads1299Driver.ResetRegisters | Reading_EEG_Data/ads1299_main/ADS1299.cpp:38-58 | after reset every channel is powered down, lead-off detection is off everywhere and MISC1 holds the SRB1 setting |
| Ads1299Data.LeWord | Reading_EEG_Data/ads1299_main/ADS1299.cpp:521-522 | four bytes per word |
| Ads1299Data.LeWordRoundTrip | Reading_EEG_Data/ads1299_main/ADS1299.cpp:521-522 | a receiver reassembles exactly the word sent |
| Ads1299Data.WordOfRoundTrip | Reading_EEG_Data/ads1299_main/ADS1299.cpp:521-522 | every four bytes are the encoding of the word they assemble to |
| Ads1299Data.Signed32 | Reading_EEG_Data/SenderCode/SenderCode.h:164 | a `long` word stands for a 32-bit signed integer |
| Ads1299Data.ShiftInThree | Reading_EEG_Data/ads1299_main/ADS1299.cpp:626-635 | shifting in three bytes is three single shifts |
| Ads1299Data.StatusShifted | Reading_EEG_Data/ads1299_main/ADS1299.cpp:626-629 | the status word moves up 24 bits and the status bytes fill the low 24 |
| Ads1299Data.SignExtendBytes | Reading_EEG_Data/ads1299_main/ADS1299.cpp:641-647 | the reformatted word is the sample's three bytes under a byte copying its sign bit |
| Ads1299Data.ReformatShifted | Reading_EEG_Data/ads1299_main/ADS1299.cpp:631-647 | shifting a sample into any word and reformatting gives the sign-extended sample: the old contents do not survive |
| Ads1299Data.SignExtendValue | Reading_EEG_Data/ads1299_main/ADS1299.cpp:641-647 | the reformatted word stands for the 24-bit two's-complement value of the sample |
| Ads1299Data.HighBit | Reading_EEG_Data/ads1299_main/ADS1299.cpp:642 | the top bit of a byte is set exactly for values of 0x80 and above |
| Ads1299Data.SignedOfBytes | Reading_EEG_Data/ads1299_main/ADS1299.cpp:641-647 | a word's signed value from its four bytes |
| Ads1299Data.StatusShiftIn | Reading_EEG_Data/ads1299_main/ADS1299.cpp:626-629 | the status bytes of a frame shifted into `stat_1` |
| Ads1299Data.ChannelShiftIn | Reading_EEG_Data/ads1299_main/ADS1299.cpp:631-647 | channel i's bytes shifted into any word and reformatted give channel i's sample |
| Ads1299Data.RampPhase | Reading_EEG_Data/ads1299_main/ADS1299.cpp:651-652 | the ramp position is a byte |
| Ads1299Data.SyntheticSample | Reading_EEG_Data/ads1299_main/ADS1299.cpp:650-655 | the synthetic sample stays within about half the amplitude (8950) of zero |
| Ads1299Data.SyntheticSign | Reading_EEG_Data/ads1299_main/ADS1299.cpp:650-655 | the ramp is negative on its first half, zero at phase 127 and positive after |
| Ads1299Data.SyntheticPeriodic | Reading_EEG_Data/ads1299_main/ADS1299.cpp:650-655 | the ramp repeats every 256 samples |
| Ads1299Data.SentWords | Reading_EEG_Data/ads1299_main/ADS1299.cpp:525-535 | one word per channel sent |
| Ads1299Data.WordBytes | Reading_EEG_Data/ads1299_main/ADS1299.cpp:534 | four bytes per word |
| Ads1299Data.WordBytesAt | Reading_EEG_Data/ads1299_main/ADS1299.cpp:534 | bytes 4c..4c+3 are word c's bytes |
| Ads1299Data.PayloadLengthValue | Reading_EEG_Data/ads1299_main/ADS1299.cpp:516-518 | the length byte counts the bytes between itself and the end marker |
| Ads1299Data.BinaryPacket | Reading_EEG_Data/ads1299_main/ADS1299.cpp:509-545 | the packet is empty exactly when N is outside 1..8 |
| Ads1299Data.BinaryPacketFrame | Reading_EEG_Data/ads1299_main/ADS1299.cpp:512-544 | start and end markers at both ends, a length byte counting the bytes after it, and the sample number next |
| Ads1299Data.BinaryPacketWordAt | Reading_EEG_Data/ads1299_main/ADS1299.cpp:525-535 | the four bytes at `6 + 4c` read back channel c's word |
| Ads1299Data.BinaryPacketAux | Reading_EEG_Data/ads1299_main/ADS1299.cpp:538-541 | the four bytes after the last channel read back the aux value |
| Ads1299Data.BinaryPacketWords | Reading_EEG_Data/ads1299_main/ADS1299.cpp:509-545 | reading four bytes at a time after the sample number gives each channel word in order, then the aux value |
| Ads1299Data.Escape | Reading_EEG_Data/ads1299_main/ADS1299.cpp:560-588 | an escaped byte is never the sync byte: the sync byte is sent as 0xA4, and other bytes pass unchanged |
| Ads1299Data.P2Word | Reading_EEG_Data/ads1299_main/ADS1299.cpp:579-582 | the value sent fits 10 bits |
| Ads1299Data.P2WordScale | Reading_EEG_Data/ads1299_main/ADS1299.cpp:579-582 | the value sent is the truncated quotient by 32 when in 0..1023, and 1023 above and for every negative quotient |
| Ads1299Data.P2Words | Reading_EEG_Data/ads1299_main/ADS1299.cpp:568-589 | six 10-bit values |
| Ads1299Data.P2Pair | Reading_EEG_Data/ads1299_main/ADS1299.cpp:583-588 | two bytes, neither the sync byte |
| Ads1299Data.P2PairBytes | Reading_EEG_Data/ads1299_main/ADS1299.cpp:583-588 | the high byte is `w / 256`, and the low byte `w % 256` unless that is the sync byte |
| Ads1299Data.PairBytes | Reading_EEG_Data/ads1299_main/ADS1299.cpp:568-589 | two bytes per value, none of them the sync byte |
| Ads1299Data.PairBytesAt | Reading_EEG_Data/ads1299_main/ADS1299.cpp:568-589 | bytes 2c and 2c+1 are value c's pair |
| Ads1299Data.NextCount | Reading_EEG_Data/ads1299_main/ADS1299.cpp:591 | the counter advances modulo 18 |
| Ads1299Data.P2PacketFrame | Reading_EEG_Data/ads1299_main/ADS1299.cpp:551-596 | 17 bytes: sync bytes and version first, the switches byte last, and the first sync byte nowhere else |
| Ads1299Data.P2PacketPairAt | Reading_EEG_Data/ads1299_main/ADS1299.cpp:568-589 | channel c's pair sits at bytes `4 + 2c` and `5 + 2c` |
| Ads1299Data.CountCycle | Reading_EEG_Data/ads1299_main/ADS1299.cpp:552-595 | the counter cycles through 0..17 from its initial -1, so the switches byte is 0x07 for nine packets and 0x0F for the next nine |
| Ads1299Board.Ads1299.constructor | Reading_EEG_Data/SenderCode/SenderCode.h:161-171 | registers, samples, status and counter as static storage starts them, no serial output |
| Ads1299Board.Ads1299.Rreg | Reading_EEG_Data/ads1299_main/ADS1299.cpp:598-619 | the register's mirrored value |
| Ads1299Board.Ads1299.Wreg | Reading_EEG_Data/ads1299_main/ADS1299.cpp:442-455 | the mirror entry takes the value and no other changes |
| Ads1299Board.Ads1299.IsChannelActive | Reading_EEG_Data/ads1299_main/ADS1299.cpp:113-119 | bit 7 of the channel register, as written |
| Ads1299Board.Ads1299.DeactivateBiasForChannel | Reading_EEG_Data/ads1299_main/ADS1299.cpp:143-158 | the registers become `BiasDeactivated` of the old ones |
| Ads1299Board.Ads1299.ActivateBiasForChannel | Reading_EEG_Data/ads1299_main/ADS1299.cpp:160-171 | the registers become `BiasActivated` of the old ones |
| Ads1299Board.Ads1299.AlterBiasBasedOnChannelState | Reading_EEG_Data/ads1299_main/ADS1299.cpp:131-141 | the registers become `BiasAltered` of the old ones |
| Ads1299Board.Ads1299.SetAutoBiasGeneration | Reading_EEG_Data/ads1299_main/ADS1299.cpp:121-128 | the flag is set and channels 1..7 are re-routed |
| Ads1299Board.Ads1299.DeactivateChannel | Reading_EEG_Data/ads1299_main/ADS1299.cpp:62-79 | the registers become `Deactivated` of the old ones |
| Ads1299Board.Ads1299.UseSrb1 | Reading_EEG_Data/ads1299_main/ADS1299.cpp:669-677 | SRB1 is used exactly when no channel uses SRB2 |
| Ads1299Board.Ads1299.SetSrb1 | Reading_EEG_Data/ads1299_main/ADS1299.cpp:226-232 | only MISC1 changes, to the SRB1 setting |
| Ads1299Board.Ads1299.ActivateChannel | Reading_EEG_Data/ads1299_main/ADS1299.cpp:83-109 | the registers become `Activated` of the old ones |
| Ads1299Board.Ads1299.ChannelSetting | Reading_EEG_Data/ads1299_main/ADS1299.cpp:88-95 | the channel setting built is `ChannelConfig` |
| Ads1299Board.Ads1299.ChangeChannelLeadOffDetection | Reading_EEG_Data/ads1299_main/ADS1299.cpp:173-206 | the registers become `LeadOffChanged` of the old ones |
| Ads1299Board.Ads1299.ConfigureLeadOffDetection | Reading_EEG_Data/ads1299_main/ADS1299.cpp:208-224 | the registers become `LeadOffConfigured` of the old ones |
| Ads1299Board.Ads1299.ConfigureInternalTestSignal | Reading_EEG_Data/ads1299_main/ADS1299.cpp:235-243 | the registers become `TestSignalConfigured` of the old ones |
| Ads1299Board.Ads1299.Reset | Reading_EEG_Data/ads1299_main/ADS1299.cpp:38-58 | the registers become `ResetRegs` of the old ones, and automatic bias is on |
| Ads1299Board.Ads1299.DeactivateAllChannels | Reading_EEG_Data/ads1299_main/ADS1299.cpp:51-54 | the reset loop over channels 1..8 |
| Ads1299Board.Ads1299.ShiftStatus | Reading_EEG_Data/ads1299_main/ADS1299.cpp:626-629 | the status bytes are shifted into `stat_1` |
| Ads1299Board.Ads1299.ShiftChannels | Reading_EEG_Data/ads1299_main/ADS1299.cpp:631-647 | each channel word holds its sign-extended sample from the frame |
| Ads1299Board.Ads1299.ShiftWord | Reading_EEG_Data/ads1299_main/ADS1299.cpp:632-635 | the bytes shifted in one by one |
| Ads1299Board.Ads1299.ReformatWord | Reading_EEG_Data/ads1299_main/ADS1299.cpp:642-646 | bit 23 copied into the top byte |
| Ads1299Board.Ads1299.UpdateChannelData | Reading_EEG_Data/ads1299_main/ADS1299.cpp:621-648 | `stat_1` is shifted by the status bytes and every channel holds its sign-extended sample |
| Ads1299Board.Ads1299.Rdata | Reading_EEG_Data/ads1299_main/ADS1299.cpp:260-286 | `stat_1` holds exactly the status bytes and every channel holds its sign-extended sample |
| Ads1299Board.Ads1299.WriteChannelDataAsBinary | Reading_EEG_Data/ads1299_main/ADS1299.cpp:497-545 | the serial output is extended by exactly `BinaryPacket` |
| Ads1299Board.Ads1299.BinaryPacketBytes | Reading_EEG_Data/ads1299_main/ADS1299.cpp:514-544 | the bytes of one packet |
| Ads1299Board.Ads1299.ChannelWordBytes | Reading_EEG_Data/ads1299_main/ADS1299.cpp:525-535 | the bytes of the channel words |
| Ads1299Board.Ads1299.WriteChannelDataAsOpenEEG_P2 | Reading_EEG_Data/ads1299_main/ADS1299.cpp:548-596 | the counter advances modulo 18 and the serial output is extended by exactly `P2Packet` |
| Ads1299Board.Ads1299.P2PacketBytes | Reading_EEG_Data/ads1299_main/ADS1299.cpp:557-595 | the bytes of one P2 packet |
| Ads1299Board.Ads1299.P2ChannelBytes | Reading_EEG_Data/ads1299_main/ADS1299.cpp:568-589 | the escaped pairs of channels 0..5 |
| Ads1299Board.Ads1299.P2Scale | Reading_EEG_Data/ads1299_main/ADS1299.cpp:579-582 | the 10-bit value of one channel |
| Ads1299Board.Ads1299.EscapedPair | Reading_EEG_Data/ads1299_main/ADS1299.cpp:583-588 | the two escaped bytes of one channel |
| Ads1299Board.Ads1299.EscapeByte | Reading_EEG_Data/ads1299_main/ADS1299.cpp:560-561 | the escaped byte |

## Left out

- Hardware and I/O are left out: SPI chip-select and clocking, delays, the FreeRTOS critical sections, Wi-Fi and UDP, the BLE scan and connection, serial ports, files, Qt signals and Unity. The bytes and lines they deliver are parameters, and what they emit is a sequence or a map.
- SPI `transfer` in `Reading_EEG_Data/ads1299_main/ADS1299.cpp` has no `return` statement, so the value it yields is undefined. The device is therefore modelled as its `regData` mirror: `RREG` reads the mirror, and `updateChannelData`/`RDATA` take the frame bytes as a parameter.
- `RREGS`, `WREGS`, `start`/`stop`, `SDATAC`/`RDATAC`, `WAKEUP`/`STANDBY` and the print helpers of the driver are not modelled: they only move bytes over SPI or print text.
- `initialize` is not modelled. Besides setting pins it sets `serial_feedback = true` (Reading_EEG_Data/ads1299_main/ADS1299.cpp:25).
- `Ads1299Board.Ads1299.Wreg`/`Rreg`: after `initialize()` has turned `serial_feedback` on, `WREG` prints "Register 0x.. modified." and `RREG` prints the register's name and bits, on the same serial port that carries the packets. The model is the driver with feedback off, as before `initialize()`, so `serial` holds only the packet bytes.
- The text of the status messages of `process_ble_data` is not modelled, nor are its `print` and `traceback` output. A status is its kind, plus the length for a short chunk.
- `use_neg_inputs` and `use_SRB2` are never assigned in the driver. Here they are constructor parameters.
- `Ads1299Board.Ads1299.WriteChannelDataAsOpenEEG_P2`: the packet counter is a function-local `static` in the source, shared by every driver object. The model keeps it as a field of the object, so it assumes one driver object per program.
- `Ads1299Driver.TestSignalConfigured`: CONFIG2's fields are stated only for in-range codes (or the no-change code). An unmasked out-of-range code spills into other bits, and only its fixed bits are stated.
- `Ads1299Board.Ads1299.DeactivateBiasForChannel`, `ActivateBiasForChannel` and `AlterBiasBasedOnChannelState` write registers only in the mirror. The order of the SPI writes is not modelled.
- Floating point is modelled as real arithmetic. No rounding, overflow, NaN or infinity is modelled.
- `exp` and Python's `float()` are unconstrained parameters. The only exception is the formatted-line round trips, which take as a hypothesis that `float()` accepts the timestamp text. `sqrt` is assumed non-negative on non-negative arguments (`VssApa.Usable`). This keeps `rms_error + 1e-6` non-zero in the step-size update (ml-model/VSSAPA.C:321-322). Nothing else is assumed about it.
- `Qklms.QklmsFilterFull` takes the kernel as a function of two points. `Qklms.IsGaussian` says when it is the Gaussian kernel; the learning rule is proved for any kernel.
- The CSV loaders (`count_lines`, `load_csv`), `main` and the per-call timing and performance log of the C programs are not modelled. Neither is the websocket handler.
- `generate_timestamp` in `Reading_EEG_Data/code.py` is a parameter: it reads the clock.
- Python's `int()` is modelled for bases 10 and 16 on ASCII text, with signs, `0x` prefixes, underscores and surrounding whitespace. Unicode digits are not modelled.
- `AnalogMux.AnalogDataTransmitter.SetSelectLines` takes a natural number. `bin()` of a negative value would make the script raise, and its only caller passes 0..7.
- `json.dumps` of the channel dictionary is not modelled; the dictionary itself is.
- The matrices of `ml-model/VSSAPA.C` are two-dimensional arrays and sequences of rows. The row-major index arithmetic `i*P + p` is not modelled.
- `VssApa.Iteration`: when the inversion fails, `apply_vss_apa_filter` returns early, leaving only `w_new` unwritten. `y_vec` and `e_vec` were already written, before the inversion, and the model uses those computed outputs and errors. The never-initialised contents of `w_new` are the explicit parameter `wNewInit`.
- The Unity time scale is a field of the game manager object. The static properties are fields of that one object.

## Findings

| source | as written | input that shows it | evidently intended | confidence | as-written member | corrected member |
|---|---|---|---|---|---|---|
| rpi_low_cost/code.py:65-71 | `getData` reads the sensor before `setSelectLines(i)`, so `CHi` holds multiplexer input i - 1, and `CH0` holds whichever input was left selected | a sensor that reports the selected input number: `CH1` is 0 | `CHi` holds input i, with the lines set before each reading | not executed | AnalogMux.AnalogDataTransmitter.GetData, AnalogMux.ReadingsAsWritten, AnalogMux.ReadingsShiftedByOne | AnalogMux.AnalogDataTransmitter.GetDataSelectingFirst |
| eeg_gui_PyQt/utils/ble_handler.py:99-136 | `data_buffer` is a list (`[]`, `extend`, list slices), so each 36-element chunk passed to `struct.unpack('<I 8i', ...)` raises TypeError, which is caught: no packet is ever emitted on `data_received`, only an error status per chunk | one 36-byte notification on a fresh worker | the buffer is bytes (`bytearray()`, as in the later GUI's copy of this handler), so each chunk unpacks into a timestamp and eight samples | not executed | BleHandler.BleWorker.HandleNotificationAsWritten, BleHandler.ProcessListData, BleHandler.OneChunkNotification | BleHandler.BleWorker.HandleNotification |
