# EEG/EOG Meteor Dodge: a verified Dafny model

This project models the logic of a brain-computer-interface demo. An EEG
headset sends samples over Bluetooth Low Energy (BLE). A legacy classifier
turns alpha/beta band power into a direction. A TCP client forwards eye-movement
(EOG) commands to "Meteor Dodge", a pygame game in which a character dodges
meteors, shoots bullets and collects rewards. The model covers four parts:

- **The BLE frame codec.**
  - A frame is a header byte (`0x24` AF4, `0x26` AF3, `0x25` PPG), then the
    sample as ASCII decimal digits, then `0x0A`. It travels as hexadecimal text.
  - `BleDecoder` models `BLEPacketDecoder` (the sample decoder). It holds three
    bounded FIFO buffers (`BoundedDeque`) of capacity 2000, 2000 and 200.
  - `BleEncoder` models the frame encoder of the mock adapter. It proves that
    decoding an encoded frame gives back the clamped sample on the right channel.
  - `PyBuiltins` models the Python built-ins that both sides rely on:
    `bytes.fromhex`, `bytes.decode('ascii')`, `str.strip`, `int(str)`,
    `str(int)` and `'%02x'` formatting.
- **The legacy EEG direction classifier** (`EegProcessor`). It covers:
  - the band ratios;
  - the five-way decision tree with its floored dynamic threshold;
  - the clamped speed;
  - the gating and history updates of one processing step.
- **The EOG client's command path** (`EogClient`). It covers the command
  mapping, the validation, and one tick of the rate-limited command queue.
- **The game state machines.** Each is a class with the source's fields:
  - the character's bounded velocity (`Character`);
  - the evaluator's confusion-matrix counters and score (`GameEvaluator`);
  - meteors and their spawner (`Meteor`);
  - bullets and collision bookkeeping (`Bullet`);
  - rewards and their spawner (`Reward`);
  - the game's command history and its "double move" speed rules (`MeteorDodgeGame`).
  `Lists` holds the facts shared by the "keep the still-active objects" loops.

How inputs from outside are modelled:

- Wall-clock time, random draws and pygame's rectangle collision are
  parameters of the methods that use them.
- Floating-point quantities are exact reals.
- Calls into scipy and numpy (filters, RMS amplitudes, `np.std`, the signal
  quality) are inputs, either values or function parameters.

Where the code and its own comments or documentation disagree, the model
follows the code:

- `_process_commands` (game/eog_client.py:146-158) handles the *oldest*
  queued message (`get_nowait` on a FIFO queue), then throws the rest away.
  Its comment says it handles the most recent one.
- `process_eog_command` stores the raw command in `command_history`, not the
  recorded `left`/`right`/`idle`. An unknown command such as `blink` therefore
  stops the character and still breaks a "double move".
- `MeteorSpawner.update` checks the five-meteor cap only before spawning. One
  call can return up to five meteors on top of those already present
  (`Meteor.CapCheckedBeforeSpawning`).
- `process_eeg_data` counts an empty PPG buffer as a stress level of 0.5, which
  is above the 0.1 threshold, so the state becomes "Stressed".
- `int(str)` accepts a sign. A frame whose payload is `-5` therefore decodes to
  the value -5 on its channel (`BleDecoder.NegativeValueAccepted`).

## Model

| member | source | states |
|---|---|---|
| PyBuiltins.DigitValue | ble/ble_decoder.py:18 | the value of a decimal digit character is below ten |
| PyBuiltins.DigitChar | mock_ble_adapter.py:156 | the character written for a digit below ten is a decimal digit whose value is that digit |
| PyBuiltins.HexDigitValue | ble/ble_decoder.py:12 | a hexadecimal digit of either case stands for a value below sixteen |
| PyBuiltins.LowerHexChar | mock_ble_adapter.py:164 | the `x` format digit for a value below sixteen is a non-space hexadecimal digit that reads back as that value |
| PyBuiltins.HexByte | mock_ble_adapter.py:164 | `02x` formatting always gives exactly two characters |
| PyBuiltins.ToHex | mock_ble_adapter.py:164 | the joined hexadecimal text has two characters per byte |
| PyBuiltins.FromHexToHex | ble/ble_decoder.py:12 | `bytes.fromhex` gives back exactly the bytes the encoder wrote as hexadecimal text |
| PyBuiltins.ToHexIsLowerHex | mock_ble_adapter.py:164 | hexadecimal text written by the encoder holds only `0`-`9` and `a`-`f` |
| PyBuiltins.FromHex | ble/ble_decoder.py:12 | `bytes.fromhex` fails on any text holding a character other than a hexadecimal digit or whitespace, and never yields more than one byte per two characters |
| PyBuiltins.AsciiDecode | ble/ble_decoder.py:17 | ASCII decoding succeeds exactly when every byte is below 128, and then maps each byte to the character with that code |
| PyBuiltins.AsciiBytes | mock_ble_adapter.py:157-158 | `ord` of each character of an ASCII string, one byte per character |
| PyBuiltins.AsciiRoundTrip | ble/ble_decoder.py:17 | decoding the bytes of an ASCII string gives the string back |
| PyBuiltins.TrimLeft | ble/ble_decoder.py:17 | the leading-whitespace cut keeps a suffix of the text, drops only whitespace, and leaves a result that is empty or starts with a non-space |
| PyBuiltins.TrimRight | ble/ble_decoder.py:17 | the trailing-whitespace cut keeps a prefix of the text, drops only whitespace, and leaves a result that is empty or ends with a non-space |
| PyBuiltins.StripStart | ble/ble_decoder.py:17 | the number of characters `strip` drops at the front, all of them whitespace |
| PyBuiltins.Strip | ble/ble_decoder.py:17 | `strip` keeps a contiguous slice of the text, drops only whitespace on either side, and leaves a result that is empty or neither starts nor ends with whitespace |
| PyBuiltins.StripIdempotent | ble/ble_decoder.py:17 | stripping twice is the same as stripping once |
| PyBuiltins.StripNoEdgeSpace | ble/ble_decoder.py:17 | `strip` leaves text that neither starts nor ends with whitespace unchanged |
| PyBuiltins.DecimalString | mock_ble_adapter.py:156 | `str(n)` of a non-negative integer is a non-empty string of decimal digits without a leading zero |
| PyBuiltins.DropUnderscores | ble/ble_decoder.py:18 | removing the `_` separators `int` allows never lengthens the text |
| PyBuiltins.DropUnderscoresDigits | ble/ble_decoder.py:18 | with the separators of a digit group removed only digits remain |
| PyBuiltins.DigitsValueDecimal | ble/ble_decoder.py:18 | the digits of `str(n)` denote `n` |
| PyBuiltins.DropUnderscoresNone | ble/ble_decoder.py:18 | a string of digits has no separators to remove |
| PyBuiltins.ParseInt | ble/ble_decoder.py:18 | `int` of a string succeeds only when it ends in a decimal digit, and a negative result needs a leading minus sign |
| PyBuiltins.ParseDigits | ble/ble_decoder.py:18 | `int` of a non-empty run of decimal digits is the number the digits denote |
| PyBuiltins.ParseNegated | ble/ble_decoder.py:18 | `int` of a minus sign followed by digits is the negation of `int` of the digits |
| PyBuiltins.ParseStrippedNegated | ble/ble_decoder.py:17-18 | a minus sign before digits survives `strip`, and `int` then gives the negated value |
| PyBuiltins.ParseDecimalString | ble/ble_decoder.py:18 | `int(str(n)) == n` for every non-negative `n` |
| BoundedDeque.Last | ble/ble_decoder.py:6-8 | a bounded buffer holds the last `capacity` elements, or all of them when there are fewer |
| BoundedDeque.Push | ble/ble_decoder.py:6-8 | appending to a bounded deque keeps the newest `capacity` elements, never exceeds the capacity, and ends with the new element |
| BoundedDeque.PushAll | ble/ble_decoder.py:6-8 | any number of appends keeps the buffer within its capacity |
| BoundedDeque.LastOfLast | ble/ble_decoder.py:6-8 | trimming to the last `n` before appending more and trimming again is the same as trimming once |
| BoundedDeque.LastAfterPush | ble/ble_decoder.py:6-8 | trimming after one append loses nothing that trimming at the end of further appends would keep |
| BoundedDeque.PushAllKeepsNewest | ble/ble_decoder.py:6-8 | after any sequence of appends the buffer is the newest `capacity` values of the old contents followed by the new ones, in order |
| BoundedDeque.FreshBufferAfterAppends | ble/ble_decoder.py:6-8 | starting empty, `N` appends leave `min(N, capacity)` values, the most recent ones, in order |
| BleDecoder.ParseFrame | ble/ble_decoder.py:11-18 | a packet that is not hexadecimal yields no frame; a frame comes only from at least three bytes ending in 0x0A, and its header is the first byte |
| BleDecoder.ParseBytes | ble/ble_decoder.py:13-18 | after `bytes.fromhex`, a frame comes only from at least three bytes ending in 0x0A, with the first byte as its header |
| BleDecoder.Route | ble/ble_decoder.py:20-38 | no frame is dropped; an accepted value is the frame's value on the channel its header names, below one million on PPG; a frame for any channel but PPG is always accepted |
| BleDecoder.PacketOutcome | ble/ble_decoder.py:10-41 | an accepted value and channel come from the parsed frame, a PPG value is accepted only below one million, and an unparseable packet is dropped |
| BleDecoder.Flatlined | ble/ble_decoder.py:44 | the noise test holds only for more than 100 AF3 samples whose total distance from 8809000 is below 2000 per sample |
| BleDecoder.MalformedFrameRejected | ble/ble_decoder.py:13-14 | a frame shorter than three bytes or not ending in 0x0A is dropped |
| BleDecoder.ParseWellFramed | ble/ble_decoder.py:12-18 | the hex text of `header ++ payload ++ 0x0A` parses exactly as its payload decodes as ASCII, is stripped and read by `int` |
| BleDecoder.Routing | ble/ble_decoder.py:20-38 | a parseable frame goes to AF4 for 0x24, AF3 for 0x26, PPG for 0x25 only below one million (otherwise dropped), and to Unknown for any other header |
| BleDecoder.NegativeValueAccepted | ble/ble_decoder.py:18-38 | a frame carrying `-n` is accepted with the value `-n` on its header's channel |
| BleDecoder.NegatedDigitsAccepted | ble/ble_decoder.py:17-38 | a frame carrying a minus sign before digits that parse as `m` is accepted with the value `-m` |
| BleDecoder.TextRouted | ble/ble_decoder.py:12-38 | the frame of an ASCII text that parses is routed on its header and its parsed value alone |
| BleDecoder.TextAccepted | ble/ble_decoder.py:20-38 | below the PPG ceiling such a frame is accepted on the channel its header names |
| BleDecoder.SmallSumHasSmallTerm | ble/ble_decoder.py:44 | a total AF3 deviation below 2000 per sample means some sample lies within 2000 of the baseline |
| BleDecoder.FlatlinedHasSampleNearBaseline | ble/ble_decoder.py:44 | a buffer the noise test calls flat-lined has a sample within 2000 of 8809000 |
| BleDecoder.ParsePacket | ble/ble_decoder.py:10-18 | the hex, length, terminator, ASCII and `int` steps give the frame's header and value, or `None` where any step raises |
| BleDecoder.BLEPacketDecoder.constructor | ble/ble_decoder.py:5-8 | all three buffers start empty, within their capacities |
| BleDecoder.BLEPacketDecoder.DecodePacket | ble/ble_decoder.py:10-41 | returns `(label, value)` for an accepted frame and appends that value to its channel's buffer only; a dropped frame returns `None` and changes nothing |
| BleDecoder.BLEPacketDecoder.StoreFrame | ble/ble_decoder.py:20-38 | a parsed frame is reported with its channel label and appended to that channel's buffer only, a PPG value of a million or more is dropped, and no frame changes nothing |
| BleDecoder.BLEPacketDecoder.ClearNoise | ble/ble_decoder.py:43-48 | all three buffers are emptied exactly when AF3 holds over 100 samples whose mean distance from 8809000 is below 2000; otherwise nothing changes |
| BleEncoder.EncodedSample | mock_ble_adapter.py:143-147 | the first sample (8388608 when there is none), clamped into `[0, 16777215]` |
| BleEncoder.ConvertToBleHex | mock_ble_adapter.py:137-166 | the text is the lower-case hex of `header & 0xFF`, the decimal digits of the clamped sample and 0x0A |
| BleEncoder.SampleDigits | mock_ble_adapter.py:156-158 | the loop collects one ASCII byte per digit of `str(sample)` |
| BleEncoder.PayloadHasNoTerminator | mock_ble_adapter.py:150-161 | an encoded frame has at least three bytes and ends in 0x0A, and every payload byte is a digit, so the terminator appears only at the end |
| BleEncoder.EncodedTextIsLowerHex | mock_ble_adapter.py:164 | the encoded text has two lower-case hexadecimal digits per frame byte |
| BleEncoder.RoundTrip | mock_ble_adapter.py:137-166 | decoding an encoded frame gives back the clamped first sample on its header's channel; only a PPG value of a million or more is dropped |
| BleEncoder.EegRoundTrip | mock_ble_adapter.py:109-110 | AF3 (0x26) and AF4 (0x24) frames from the adapter are always accepted with the clamped sample |
| BleEncoder.ProcessMockPacket | mock_ble_adapter.py:105-135 | feeding one block's AF3 and AF4 frames to the decoder appends each clamped first sample to its own buffer and leaves PPG unchanged |
| BleEncoder.SendFrame | mock_ble_adapter.py:109-114 | encoding a frame and decoding it updates each buffer exactly as the decoded outcome says |
| EegProcessor.ExtractFeatures | signal_processing/eeg_processor.py:19-45 | with fewer than two samples every figure is zero; otherwise the amplitudes pass through and each ratio times the total amplitude is its band's amplitude, or zero when the total is zero |
| EegProcessor.RatiosAreShares | signal_processing/eeg_processor.py:38-40 | for non-negative amplitudes with a positive total the two ratios lie in `[0, 1]` and sum to one |
| EegProcessor.DynamicThreshold | signal_processing/eeg_processor.py:56-57 | the threshold is 0.1 until the history holds more than 10 entries, then the history's standard deviation, and never below 0.02 |
| EegProcessor.Quiet | signal_processing/eeg_processor.py:61-62 | rule 1 of the decision tree: both alpha ratios below 0.1 and the AF4 beta ratio below 0.3 |
| EegProcessor.Decide | signal_processing/eeg_processor.py:55-70 | the five rules in order; "none" is returned exactly when the quiet rule holds |
| EegProcessor.DecideRules | signal_processing/eeg_processor.py:61-70 | each of "none", "right", "left", "up" and "down" is returned exactly when its rule holds and no earlier rule does; "up" needs the alpha sum above 1 and the alpha asymmetry strictly between -0.2 and 0.2, and "down" is the case where every rule fails |
| EegProcessor.DecideMirror | signal_processing/eeg_processor.py:61-70 | exchanging AF3 and AF4 exchanges left and right and keeps up, down and none, when the quiet rule fires in neither order |
| EegProcessor.QuietIsAsymmetric | signal_processing/eeg_processor.py:61-62 | the quiet rule reads only the AF4 beta ratio, so it can hold for one channel order and not the other |
| EegProcessor.BelowCeiling | signal_processing/eeg_processor.py:73 | keeps the PPG values below one million, in order and with their repetitions, and nothing else |
| EegProcessor.BelowCeilingFlags | signal_processing/eeg_processor.py:73 | one flag per PPG value, set exactly when that value is below one million |
| EegProcessor.CalculateSpeed | signal_processing/eeg_processor.py:72-77 | the speed always lies in `[0.05, 0.5]`, and is 0.05 when no PPG value is below the ceiling |
| EegProcessor.CalculateSpeedSeesOnlyBelowCeiling | signal_processing/eeg_processor.py:72-77 | two PPG buffers with the same values below one million, in the same order, give the same speed |
| EegProcessor.CalculateSpeedIgnoresLargeReading | signal_processing/eeg_processor.py:73 | a reading of one million or more, appended to the buffer, does not change the speed |
| EegProcessor.MentalState | signal_processing/eeg_processor.py:110-111 | the state is "Stressed" or "Calm", and "Stressed" when the PPG buffer is empty |
| EegProcessor.GatedEntry | signal_processing/eeg_processor.py:103-106 | the appended entry is the classified direction or "none", and always "none" while the history holds two entries or fewer |
| EegProcessor.HistoryWarmsUp | signal_processing/eeg_processor.py:103-106 | from an empty history the first three entries are "none" whatever was classified, and the fourth is the classified direction |
| EegProcessor.EEGProcessor.constructor | signal_processing/eeg_processor.py:7-14 | empty histories, the "Unknown" mental state and a zero update counter |
| EegProcessor.EEGProcessor.ClassifyDirection | signal_processing/eeg_processor.py:47-70 | the beta asymmetry is appended to the bounded history and the result is the decision tree under the threshold computed from the new history |
| EegProcessor.EEGProcessor.ProcessEegData | signal_processing/eeg_processor.py:79-116 | a weak signal, a short AF4 buffer or a low smoothed beta gives "none" and leaves every history alone; otherwise the classified direction, both beta histories gain the asymmetry and `directions` gains the gated entry; the mental state and counter are always refreshed |
| EogClient.MapEogToGameCommand | game/eog_client.py:197-213 | the result is one of left, right, blink and idle, and equals the input exactly when the input is already one of those four |
| EogClient.MapIdempotent | game/eog_client.py:206-213 | mapping a mapped command changes nothing |
| EogClient.MapCollapsesToIdle | game/eog_client.py:212-213 | up, down, center and idle all become idle |
| EogClient.LowerChar | game/eog_client.py:176 | lower-casing yields an ASCII letter only from an ASCII letter or the Kelvin sign |
| EogClient.Lower | game/eog_client.py:176 | lower-casing works character by character and keeps the length |
| EogClient.LowerOfLowerCase | game/eog_client.py:176 | a lower-case name is left as it is |
| EogClient.CommandName | game/eog_client.py:176 | a missing "command" entry reads as "idle"; a message that is not an object, or an entry that is not a string, raises and yields no name |
| EogClient.HandleCommand | game/eog_client.py:170-195 | a command is forwarded exactly when its lower-cased name is one of the seven valid names and the game is active, and what is forwarded is the mapped name |
| EogClient.MissingCommandIsIdle | game/eog_client.py:176-190 | a message without a command reaches a running game as idle, and a stopped game as nothing |
| EogClient.UpperCaseAccepted | game/eog_client.py:176-190 | "LEFT" is forwarded as left |
| EogClient.CaseInsensitive | game/eog_client.py:176 | a command name is handled exactly as its lower-cased spelling is |
| EogClient.KelvinSignAccepted | game/eog_client.py:176-190 | a name spelled with the Kelvin sign lower-cases to "blink" and is forwarded |
| EogClient.NotForwarded | game/eog_client.py:180-190 | nothing reaches a stopped game, and an invalid name never reaches a running one |
| EogClient.EOGClient.constructor | game/eog_client.py:25-27 | the queue starts empty and the last command time at zero |
| EogClient.EOGClient.Enqueue | game/eog_client.py:127-128 | a received message joins the back of the queue |
| EogClient.EOGClient.ProcessTick | game/eog_client.py:141-162 | once a second has passed and the queue is not empty, the oldest message is handled, the time recorded and the queue emptied; otherwise nothing changes and nothing is forwarded |
| EogClient.TwoMessagesOneCommand | game/eog_client.py:146-158 | of two messages queued between ticks only the first reaches the game, and a tick within the following second forwards nothing |
| GameEvaluator.CellOf | game/game_evaluator.py:125-137 | the four cells are chosen by exactly the four combinations of "intended is the class" and "actual is the class" |
| GameEvaluator.Tally | game/game_evaluator.py:125-137 | a cell of a matrix never counts more commands than were logged |
| GameEvaluator.TallyAppend | game/game_evaluator.py:73-76 | logging one more command adds one to exactly the cell its pair falls in |
| GameEvaluator.TallyPartition | game/game_evaluator.py:125-137 | every logged command lands in exactly one cell of each class's matrix |
| GameEvaluator.EmptyMatchesLog | game/game_evaluator.py:36-39 | empty counters agree with an empty command log |
| GameEvaluator.CountsOnePairKeepsLog | game/game_evaluator.py:73-76 | counting one pair keeps the counters in step with the log extended by that command |
| GameEvaluator.CountersCoverEveryCommand | game/game_evaluator.py:118-137 | for each class TP + FN + FP + TN equals the number of recorded commands |
| GameEvaluator.IntendedCommand | game/game_evaluator.py:62 | `intended or command`: a missing or empty intention means the executed command |
| GameEvaluator.OmittedIntentionOnlyTrue | game/game_evaluator.py:62-63 | without an intention a command only ever adds true positives or true negatives |
| GameEvaluator.Percentage | game/game_evaluator.py:147-150 | zero for an empty whole; otherwise the result times the whole is 100 times the part, and within `[0, 100]` when the part fits in the whole |
| GameEvaluator.SuccessCount | game/game_evaluator.py:263 | the successes are at most the logged commands |
| GameEvaluator.Precision | game/game_evaluator.py:139-150 | 0 when TP + FP is 0, and always within `[0, 100]` |
| GameEvaluator.Sensitivity | game/game_evaluator.py:152-163 | 0 when TP + FN is 0, and always within `[0, 100]` |
| GameEvaluator.Specificity | game/game_evaluator.py:165-176 | 0 when TN + FP is 0, and always within `[0, 100]` |
| GameEvaluator.PerfectClassScoresFull | game/game_evaluator.py:139-176 | a class never missed and never wrongly predicted scores 100 on all three metrics |
| GameEvaluator.WholePercentage | game/game_evaluator.py:150 | a part equal to a non-empty whole is 100 percent |
| GameEvaluator.GameEvaluator.constructor | game/game_evaluator.py:30-48 | empty logs and counters, zero score and meteor counts, the session starting at the given time |
| GameEvaluator.GameEvaluator.RecordCommand | game/game_evaluator.py:52-76 | the command is logged with its intention and success, each class's matrix counts the pair, the counters stay in step with the log, and the score and meteor counts do not change |
| GameEvaluator.GameEvaluator.UpdateClassificationMetrics | game/game_evaluator.py:118-137 | after the loop over left, right and idle each class's pair cell has grown by exactly one and nothing else changed |
| GameEvaluator.GameEvaluator.CountPair | game/game_evaluator.py:126-137 | one pass of the loop adds one to the pair's cell of the given class only |
| GameEvaluator.PartlyCountedStep | game/game_evaluator.py:125-137 | the loop invariant survives counting one more class |
| GameEvaluator.FullyCounted | game/game_evaluator.py:125-137 | after the last class the counters hold exactly one more count for the pair |
| GameEvaluator.GameEvaluator.RecordCollision | game/game_evaluator.py:80-106 | the collision is logged as avoidable exactly when the meteor was less than 100 from the character, the meteor is counted, and only then 10 points are taken off, never below 0 |
| GameEvaluator.GameEvaluator.RecordMeteorAvoided | game/game_evaluator.py:110-114 | one more meteor, one more avoided, five more points, and nothing else changes |
| GameEvaluator.GameEvaluator.GetMetrics | game/game_evaluator.py:178-197 | no metrics before the first command; afterwards the three averages each lie within `[0, 100]` |
| GameEvaluator.GameEvaluator.GetScore | game/game_evaluator.py:217-219 | the score is never negative |
| GameEvaluator.GameEvaluator.AvoidanceRate | game/game_evaluator.py:221-226 | 100 before any meteor; afterwards the avoided share of all meteors, within `[0, 100]` |
| GameEvaluator.GameEvaluator.CommandAccuracy | game/game_evaluator.py:258-264 | 0 before any command; afterwards the share of successful commands, within `[0, 100]` |
| GameEvaluator.GameEvaluator.Reset | game/game_evaluator.py:272-287 | every log, counter and score is emptied or zeroed and the session restarts at the given time |
| GameEvaluator.Distance | game/game_evaluator.py:91 | the absolute difference of the two positions |
| GameEvaluator.Floored | game/game_evaluator.py:106 | `max(0, x)` is at least `x` and equals it when `x` is not negative |
| Character.Abs | game/character.py:65 | the magnitude of the velocity, never negative |
| Character.AfterMoveLeft | game/character.py:32-39 | 0.1 further left, or exactly -1.0 when that would go past it; a velocity within `[-1, 1]` stays within it and never increases |
| Character.AfterMoveRight | game/character.py:42-49 | 0.1 further right, or exactly 1.0 when that would go past it; a velocity within `[-1, 1]` stays within it and never decreases |
| Character.Faster | game/character.py:61-67 | the magnitude grows by 0.1 up to 1.0; a zero or positive velocity ends positive and a negative one stays negative |
| Character.Slower | game/character.py:70-76 | the magnitude shrinks by 0.1 down to 0, never grows, and the sign never flips |
| Character.RightUndoesLeft | game/character.py:32-49 | in exact arithmetic, a step right undoes a step left that did not hit the limit |
| Character.SlowerUndoesFaster | game/character.py:61-76 | in exact arithmetic, slowing down undoes a speed-up that did not hit the limit |
| Character.TenStepsReachFullSpeed | game/character.py:18-20 | in exact arithmetic, ten right steps from standing still reach full speed |
| Character.ClampX | game/character.py:89 | `x` is kept within `[20, 1180]`, unchanged inside it and pinned to the nearer edge outside it |
| Character.NextFrame | game/character.py:92-97 | the animation counter stays within `[0, 4)` and is 0 whenever the character is still |
| Character.Character.constructor | game/character.py:10-28 | at the centre above the ground, standing still, facing nowhere, animation at 0 |
| Character.Character.MoveLeft | game/character.py:32-40 | the velocity steps left within the limit, the direction becomes -1, and the position does not change |
| Character.Character.MoveRight | game/character.py:42-50 | the velocity steps right within the limit, the direction becomes 1, and the position does not change |
| Character.Character.Stop | game/character.py:52-59 | velocity and direction become 0 and nothing else changes |
| Character.Character.IncreaseSpeed | game/character.py:61-68 | the velocity becomes its sped-up value and nothing else changes |
| Character.Character.DecreaseSpeed | game/character.py:70-77 | the velocity becomes its slowed value and nothing else changes |
| Character.Character.Update | game/character.py:79-97 | the position moves by `velocity * 300 * dt` clamped to the screen, the animation counter advances or resets, and the velocity stays |
| Character.Character.Reset | game/character.py:193-198 | back at the centre, standing still, facing nowhere, animation at 0 |
| Meteor.Meteor.constructor | game/meteor.py:11-31 | a meteor starts where it is placed with speed 0.1, speed limit 0.1, acceleration 0.01, an empty trail and difficulty 1 |
| Meteor.Meteor.Update | game/meteor.py:33-54 | the speed grows by `acceleration * dt * 60` but not past ten times the limit, the meteor falls by `speed * 300 * dt`, and the trail keeps the last eight positions |
| Meteor.Meteor.SetDifficulty | game/meteor.py:101-108 | the speed limit and acceleration become 0.1 and 0.01 times the difficulty; position, speed and trail do not change |
| Meteor.CappedSpeed | game/meteor.py:40 | `min(speed, max_speed * 10)` is at most both and equals one of them |
| Meteor.CapIsStable | game/meteor.py:39-40 | a meteor at its cap stays there while it keeps accelerating |
| Meteor.SpawnPoints | game/meteor.py:127-133 | five spawn points, all within the screen width |
| Meteor.SpawnIndices | game/meteor.py:166-175 | no more points spawn in one call than there are points |
| Meteor.SpawnIndicesIncreasing | game/meteor.py:166-175 | the spawning points are visited in increasing order, so none spawns twice in one call |
| Meteor.SpawnIndicesMembers | game/meteor.py:170-172 | a point spawns exactly when its timer reached its delay and its draw was below 0.6 |
| Meteor.SpawnedAtAppend | game/meteor.py:173-175 | appending a freshly spawned meteor at a spawn point keeps every new meteor matched to its point |
| Meteor.SpawnMeteor | game/meteor.py:173-174 | a new meteor at the top of the screen above the given point, with speed 0.1, speed limit and acceleration 0.1 and 0.01 times the difficulty, that difficulty as its multiplier, and an empty trail |
| Meteor.MeteorSpawner.constructor | game/meteor.py:123-145 | five spawn points, zero timers, the drawn delays, no spawn yet, difficulty 1 |
| Meteor.MeteorSpawner.Update | game/meteor.py:149-187 | nothing happens while five meteors exist or within 0.5 s of the last spawn; otherwise every timer advances, each expired point restarts with a new delay and, on a draw below 0.6, spawns a new meteor at its position with speed 0.1, an empty trail and speed limit, acceleration and multiplier set by the old difficulty; the difficulty then grows by `0.01 * dt` |
| Meteor.MeteorSpawner.UpdateSpawnPoints | game/meteor.py:166-182 | the loop over the five points yields exactly the meteors of the points that spawn, in order, each new, at its point at the top of the screen, with speed 0.1, an empty trail and the speed limit, acceleration and multiplier of the current difficulty; it advances or restarts every timer |
| Meteor.MeteorSpawner.Reset | game/meteor.py:189-194 | zero timers, freshly drawn delays, no last spawn, difficulty 1 |
| Meteor.CapCheckedBeforeSpawning | game/meteor.py:158-182 | the cap of five is checked only before the loop: four meteors on screen and five expired points with low draws give nine |
| MeteorDodgeGame.RecordedCommand | game/meteor_dodge_game.py:153-161 | the evaluator logs a move as itself and any other command as idle, so what it logs is always one of its three classes |
| MeteorDodgeGame.BasicMove | game/meteor_dodge_game.py:153-161 | left and right step the velocity within `[-1, 1]`; any other command stops the character |
| MeteorDodgeGame.DirectionOf | game/meteor_dodge_game.py:153-161 | the direction is -1, 1 or 0, and 0 exactly for a command that is not a move |
| MeteorDodgeGame.PairAdjustment | game/meteor_dodge_game.py:177-188 | a speed rule fires only for two moves: equal moves speed up, opposite moves slow down |
| MeteorDodgeGame.AdvancedAdjustment | game/meteor_dodge_game.py:171-188 | no rule fires on a history of fewer than two entries, and any rule that fires was chosen by two moves |
| MeteorDodgeGame.NextVelocity | game/meteor_dodge_game.py:134-166 | one command never takes the velocity outside `[-1, 1]` |
| MeteorDodgeGame.AdjustmentOfPush | game/meteor_dodge_game.py:142-150 | after an append the speed rules see only the previous last command and the new one; dropping the oldest entry never matters |
| MeteorDodgeGame.NonMoveStops | game/meteor_dodge_game.py:159-164 | any command other than left or right leaves the character at velocity 0, whatever the history |
| MeteorDodgeGame.FirstCommandIsBasic | game/meteor_dodge_game.py:177 | the first command after a reset gets only its basic move |
| MeteorDodgeGame.DoubleLeftFromRest | game/meteor_dodge_game.py:153-183 | in exact arithmetic, left, left from rest gives -0.1 and then -0.3 |
| MeteorDodgeGame.RightRightLeft | game/meteor_dodge_game.py:153-188 | in exact arithmetic, right, right, left from rest gives 0.1, then 0.3, then 0.1 |
| MeteorDodgeGame.DoubleLeftKeepsRightwardSign | game/meteor_dodge_game.py:181-182 | in exact arithmetic, the boost keeps the sign of the velocity: two lefts while moving right at 0.5 leave 0.4, still to the right |
| MeteorDodgeGame.MeteorDodgeGame.constructor | game/meteor_dodge_game.py:49-69 | a fresh character at its start position, standing still, facing nowhere, animation at 0; no meteors; a spawner over the screen width with zero timers, the drawn delays, no spawn yet and difficulty 1; an evaluator with empty logs and counters, zero score and meteors, and its session starting now; game inactive, last command idle, empty history, timestamp now |
| MeteorDodgeGame.MeteorDodgeGame.ProcessEogCommand | game/meteor_dodge_game.py:134-167 | the raw command joins the ten-entry history, and the velocity becomes the basic move followed by the speed rule of the new history. The evaluator logs the move and counts it in every class; its collisions, score, meteors, session start and duration stay. Position and animation frame do not change, and the command and time are remembered |
| MeteorDodgeGame.MeteorDodgeGame.RememberCommand | game/meteor_dodge_game.py:142-150 | the entry joins the history and the oldest of eleven is dropped |
| MeteorDodgeGame.MeteorDodgeGame.MoveAndRecord | game/meteor_dodge_game.py:153-161 | the character makes the basic move, keeping its position and animation frame. The evaluator logs it as a success of its recorded class and counts that pair in every class; its collisions, score, meteors, session start and duration stay |
| MeteorDodgeGame.MeteorDodgeGame.CheckAdvancedCommands | game/meteor_dodge_game.py:171-188 | the velocity is sped up, slowed down or kept as the last two history entries select; position, direction and animation frame stay |
| MeteorDodgeGame.MeteorDodgeGame.ResetGame | game/meteor_dodge_game.py:125-132 | the character is back at the centre, standing still, facing nowhere, animation at 0, at the same height. The meteors and the history are emptied. The spawner keeps its width and points, with zero timers, the drawn delays, no last spawn and difficulty 1. The evaluator has empty logs and counters, zero score and meteors, zero duration and a session starting now |
| Lists.CountTrue | game/bullet.py:148-150 | the number of active flags is at most the number of objects |
| Lists.Kept | game/bullet.py:108-114 | the kept list has one element per set flag |
| Lists.CountTrueMonotone | game/bullet.py:108-114 | clearing flags never raises the count of active objects |
| Lists.CountTrueAppend | game/bullet.py:98 | appending an object adds one to the count exactly when it is active |
| Lists.KeptAppend | game/bullet.py:108-112 | one more object extends the kept list by it exactly when its flag is set |
| Lists.KeptPrefixStep | game/bullet.py:109-112 | one more pass of the keep loop appends the element exactly when its flag is set |
| Lists.KeptIsFlaggedSublist | game/bullet.py:108-114 | the kept list is an ordered sub-list taken from flagged positions |
| Lists.KeptMembers | game/bullet.py:108-114 | an element is kept exactly when it sits at a flagged position |
| Lists.DistinctAppend | game/bullet.py:97-98 | appending an object not yet listed keeps the list free of repeats |
| Lists.KeptDistinct | game/bullet.py:108-114 | dropping objects from a list without repeats leaves a list without repeats |
| Lists.KeptAll | game/bullet.py:108-114 | with every flag set nothing is dropped |
| Bullet.NextTrail | game/bullet.py:33-35 | the trail ends with the recorded position and keeps the last five |
| Bullet.Step | game/bullet.py:27-42 | an inactive bullet is untouched; an active one records its position, rises by `speed * dt * 60`, and stays active exactly while it is not above y = -50 |
| Bullet.StepAll | game/bullet.py:109-110 | every bullet is updated once, in place |
| Bullet.Actives | game/bullet.py:111 | one flag per bullet, its `active` field |
| Bullet.StepAllNeverActivates | game/bullet.py:27-42 | an update never makes a bullet active again, so the count of active bullets never grows |
| Bullet.TopOfScreen | game/bullet.py:38-42 | a bullet that rises exactly to y = -50 stays active, and one that rises past it is gone |
| Bullet.Bullet.constructor | game/bullet.py:11-25 | a new bullet is active at its start position, with speed 5 and an empty trail |
| Bullet.Bullet.Update | game/bullet.py:27-42 | the bullet's state steps as the update rule says |
| Bullet.Bullet.HitTarget | game/bullet.py:67-69 | the bullet becomes inactive and nothing else changes |
| Bullet.States | game/bullet.py:79 | one state per bullet, in order |
| Bullet.ActiveBullets | game/bullet.py:148-150 | the active bullets, in their original order |
| Bullet.FirstHit | game/bullet.py:134-144 | the reported reward is the first active one the bullet collides with, and none is reported when it collides with none |
| Bullet.Collisions | game/bullet.py:121-146 | at most one pair per bullet, each naming an existing bullet |
| Bullet.AfterHits | game/bullet.py:142 | exactly the bullets that report a target become inactive |
| Bullet.CollisionsPrefixStep | game/bullet.py:128-145 | one more pass of the outer loop adds the pair of that bullet, if it reports one |
| Bullet.CollisionsExactly | game/bullet.py:121-146 | a pair `(i, j)` is reported exactly when bullet `i` is active and reward `j` is the first active reward it collides with |
| Bullet.CollisionsIncreasing | game/bullet.py:128-145 | the pairs come in strictly increasing bullet order, so no bullet is reported twice |
| Bullet.HitsUseUpBullets | game/bullet.py:140-144 | each reported pair deactivates one active bullet: pairs plus bullets active afterwards equal bullets active before |
| Bullet.CollisionsCountStep | game/bullet.py:140-144 | the last bullet adds one pair exactly when it reports a target |
| Bullet.TwoBulletsOneReward | game/bullet.py:134-146 | collisions do not deactivate rewards, so two bullets can report the same reward in one call |
| Bullet.FindTarget | game/bullet.py:134-144 | the inner loop finds the first active reward the bullet collides with, or none |
| Bullet.UpdateAll | game/bullet.py:108-112 | every bullet is updated once and the result lists the ones still active, in order |
| Bullet.HitAll | game/bullet.py:128-145 | the outer loop returns exactly the reported pairs, deactivates exactly the reporting bullets and leaves the rewards alone |
| Bullet.CheckBullet | game/bullet.py:129-144 | an inactive bullet is skipped; an active one reports its first target and is deactivated when it has one |
| Bullet.BulletManager.constructor | game/bullet.py:78-85 | no bullets, no shots, no hits, last shot at time 0 |
| Bullet.BulletManager.FireBullet | game/bullet.py:87-104 | a bullet is fired exactly when half a second has passed since the last shot; it starts 30 above the character and is counted, and shots-versus-hits accounting is kept |
| Bullet.BulletManager.Update | game/bullet.py:106-114 | every bullet is updated and exactly the still-active ones remain, in order; the accounting is kept |
| Bullet.BulletManager.CheckRewardCollisions | game/bullet.py:121-146 | the reported pairs, the bullets they deactivate and one hit per pair, with the rewards unchanged, and hits plus active bullets still never exceeding shots |
| Bullet.BulletManager.ClearAll | game/bullet.py:152-154 | no bullets remain and the statistics stay |
| Bullet.BulletManager.Accuracy | game/bullet.py:156-160 | 0 before the first shot; afterwards hits per shot as a percentage, within `[0, 100]` while hits do not exceed shots |
| Bullet.BulletManager.ResetStats | game/bullet.py:162-165 | both counters restart at 0; the accounting survives exactly when no bullet is still active |
| Reward.NextShine | game/reward.py:38-40 | the shine phase grows by `3 * dt` and restarts at 0 once past `2 * pi`, so it never exceeds `2 * pi` |
| Reward.Step | game/reward.py:29-44 | an inactive reward is untouched; an active one falls by `speed * dt * 60` and stays active exactly while it is not below y = 850 |
| Reward.StepAll | game/reward.py:126-127 | every reward is updated once, in order |
| Reward.Actives | game/reward.py:122 | one flag per reward, its `active` field |
| Reward.StepAllNeverActivates | game/reward.py:29-44 | an update never makes a reward active again, so the count of active rewards never grows |
| Reward.Reward.constructor | game/reward.py:12-27 | a new reward is active and not collected, worth 100 points, falling at 0.5 |
| Reward.Reward.Update | game/reward.py:29-44 | the reward's state steps as the update rule says; its value and collected flag stay |
| Reward.Reward.Collect | game/reward.py:85-88 | the reward is collected and inactive; nothing else changes |
| Reward.States | game/reward.py:100 | one state per reward, in order |
| Reward.Prizes | game/reward.py:18-27 | one pair per reward, in order: its point value and its collected flag |
| Reward.ActiveRewards | game/reward.py:149-151 | the active rewards, in their original order |
| Reward.ActiveCount | game/reward.py:122 | the number of active rewards |
| Reward.DifficultyFactor | game/reward.py:116 | spawning speeds up by 30 percent per minute of play, and the factor is at least 1 |
| Reward.EffectiveInterval | game/reward.py:117 | the interval, times the difficulty factor, is eight seconds, so it never exceeds eight seconds |
| Reward.TwoMinutesIn | game/reward.py:116-117 | two minutes in, the factor is 1.6 and a reward is due every five seconds |
| Reward.AtMostThreeKept | game/reward.py:120-133 | spawning only below three active rewards, then updating, leaves at most three active |
| Reward.RewardSpawner.constructor | game/reward.py:97-109 | no rewards, timer and game time at 0, difficulty 1 |
| Reward.RewardSpawner.Update | game/reward.py:111-133 | the clocks advance. A reward spawns at the drawn x exactly when the timer has reached the interval and fewer than three are active, and then the timer restarts. Every reward is updated and only the active ones remain, in order, at most three and none twice. Every reward keeps its value and its collected flag, and a new one is worth 100 and not collected. A spawn due on a screen under 100 wide raises, with the clocks advanced and the rewards untouched |
| Reward.RewardSpawner.SpawnIfDue | game/reward.py:112-124 | the spawning half of the update: clocks advance and a due reward is appended, worth 100 and not collected, or a due spawn on a narrow screen raises; the rewards already listed keep their value and collected flag; at most three rewards are active after the update that follows |
| Reward.RewardSpawner.SpawnWhen | game/reward.py:122-124 | when due, one reward is appended, worth 100 and not collected, and the timer restarts, with the other rewards' values and collected flags kept, unless the draw raises on a narrow screen; otherwise nothing changes |
| Reward.RewardSpawner.AdvanceClocks | game/reward.py:113-120 | game time and timer advance by `dt`, the difficulty and interval follow the game time, and the spawning test is the one `ShouldSpawn` states |
| Reward.RewardSpawner.SpawnReward | game/reward.py:135-142 | one fresh reward is appended at the drawn x at the top of the screen, worth 100 and not collected; below a width of 100 `randint` raises and nothing is appended |
| Reward.RewardSpawner.UpdateRewards | game/reward.py:126-133 | every reward is updated, keeping its value and collected flag, and exactly the still-active ones remain, in order and without repeats |
| Reward.RewardSpawner.ClearAll | game/reward.py:153-158 | no rewards, and the timer, game time and difficulty start over |
| Reward.UpdateAll | game/reward.py:126-133 | every reward is updated once, keeping its value and collected flag, and the result lists the ones still active, in order |

## Left out

- Drawing and user interface: every `draw*` method, the pygame window and event loop, and the tkinter/matplotlib UI. These render only.
- Visual state: colours, sizes, meteor rotation, and the size change in `Meteor.set_difficulty`. `Meteor.Meteor.Update` models the fall, the trail and the speed cap only.
- Network and threads: the EOG client's connection, receive and send loops, `send_game_state`, `get_connection_status`, the mock EOG server, and JSON decoding. `EogClient.EOGClient.Enqueue` stands for a decoded message arriving.
- Time: `time.time` and `pygame.time.get_ticks` become method parameters. One reading stands for two separate `time.time()` calls in two places. In `process_eog_command` (game/meteor_dodge_game.py:139), the history entry and the evaluator's `record_command` (game/game_evaluator.py:61) share one time. At start-up, `MeteorDodgeGame.__init__` (game/meteor_dodge_game.py:69) and `GameEvaluator.__init__` (game/game_evaluator.py:47) share one start time. So the model's two timestamps are equal where the program's may differ by the time between the calls.
- Randomness: the `random` draws (`randint`, `uniform`, `random`) become method parameters that carry the drawn values.
- Floating point: every float is an exact real, so rounding is not modelled.
- Character.RightUndoesLeft, Character.SlowerUndoesFaster, Character.TenStepsReachFullSpeed, MeteorDodgeGame.DoubleLeftFromRest, MeteorDodgeGame.RightRightLeft and MeteorDodgeGame.DoubleLeftKeepsRightwardSign state exact values in real arithmetic. The program's IEEE-754 doubles round the 0.1 steps:
  - ten `+= 0.1` steps from 0.0 give 0.9999999999999999, so an eleventh step is needed to reach the limit of 1.0;
  - left, left from rest gives -0.30000000000000004;
  - right, right, left gives 0.30000000000000004 and then 0.10000000000000003;
  - `(v - 0.1) + 0.1` differs from `v` at v = -0.45.
- Numeric libraries, in `extract_features` and `process_eeg_data`:
  - the scipy band-pass filters and RMS amplitudes are inputs;
  - `convert_to_uV` (a numpy int16 cast) is not modelled;
  - the windowed beta smoothing and the signal quality are inputs;
  - `np.std` is a function parameter.
- `calibrate` and `finish_calibration`: they use a Tk timer and write a CSV file.
- The chart updates and label updates in `process_eeg_data`: they only display results.
- A hidden component: the channel synchroniser and the wavelet EOG classifier (`EOGProcessor`) are not part of this model. Their source is not among the files modelled.
- The mock adapter: its thread loop, sleeps, sample generation and processing triggers. `BleEncoder.ProcessMockPacket` keeps only the two frames it sends.
- `MeteorDodgeGame.update`, `start_game`, `handle_events`, `toggle_game` and `cleanup`: the pygame frame loop.
- Reporting methods of the evaluator: `get_detailed_metrics`, `get_session_summary`, `export_session_data` and `print_summary`. They only format results.
- `_calculate_response_time`: a placeholder in the source.
- Collision rectangles: `get_rect`, `check_collision` and `colliderect` become the `collides` parameter.
- Python's limit of 4300 digits on `int(str)` is not modelled.
- BleDecoder.BLEPacketDecoder.ClearNoise: numpy computes `np.abs(np.array(af3) - 8809000)` in 64-bit integers, which wrap for samples within 8809000 of -2^63. The model uses unbounded integers, so it does not capture that wrap-around.
- Bullet.BulletManager.CheckRewardCollisions: adds the number of pairs to `bulletsHit` once, after the loop. The source adds one per hit; the final value is the same.
- EogClient.LowerChar: `str.lower` is modelled only on the characters that can lower into a valid command name: ASCII capitals and the Kelvin sign.
- Bullet.BulletManager.ResetStats: proves the hits-versus-shots accounting again only when no bullet is still flying. The source puts no restriction on when it is called.
