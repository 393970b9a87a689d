# Radio bridges: what is proved about them

A Dafny model of the parts of this repository where something can go wrong quietly: channel coding and packets of the
YSF bridge, framing and call assembly of the DMR bridge, the session registry of the audio bridge, the adaptive codec of
the IAX bridge, slow data and header check of the XLX bridge, and two parts of the dashboard, its configuration file and
its routing table. `dafny verify dfyconfig.toml` checks all of it.

Code that works in place is modelled in place: classes for the Viterbi decoder, the registry, the transmitters and
receivers, the codec state, the slow-data decoder and the configuration, and methods with loops over arrays for the bit
work. Each method is proved equal to a function on values, and the theorems are about those functions. Sockets are the
list of datagrams written or read, callbacks and calls to other systems the list of calls made.

What the theorems add up to:

- **What is on the wire and in the file.** Every packet that is built, every datagram that is read and every value
  that is loaded is also stated without the functions that compute it: fields as numbers at their bytes
  (`DmrPacket.LaidOut`, `YsfLayout`, `Odmrtp.OnTheAir`, `Dextra.HeaderLayout`), voice and header bits at their places,
  check sequences as the remainder of a division by their polynomial (`CcittRemainder`), a loaded value as that of the
  last line which sets it (`ConfigValues`), one codec step in plain numbers (`G726Adaptation`), and each registry
  operation by what it does to sessions and publishers (`RegistryEffects`).
- **YSF.** The decoder finds a nearest code word, although it does not know the start state. Since the exact minimum
  weight of a difference is known from the position of its last set bit, one inverted header bit is always repaired,
  two or three are never accepted as a different header, and which two or three are repaired is known exactly.
  Packets, voice payloads and whole transmissions come back, from one bridge to the chunks another sends on. Over any
  run of the whole bridge, both directions in any order, what a talker says is sent in one transmission, except for
  exactly what arrives while a stream from the other side is still open.
- **Registry.** An invariant over every interleaving of the critical sections gives exactly one publishing session per
  talkgroup, reference counts that equal the connects minus the disconnects, and no session that is neither used nor
  about to be closed. A session is on the talkgroup that was asked for last, and a publisher is never replaced while it
  stays. The class is proved to take only steps of that protocol.
- **DMR.** An over is heard as one call, whole and in order, or not at all, with the exact condition for each.
- **Codec.** Encoder and decoder stay in lockstep. The step size turns out never to adapt: the largest difference it can
  produce is 53, and it would take more than 408 to raise it. The quantizer never overshoots the sample, but the
  predictor behind it does: its 32-bit sum is exact under an exact condition, which half a millisecond of sound after
  eight of silence breaks, and then the sample comes out at the opposite end of the scale.
- **Configuration.** A configuration survives being saved exactly if it is well formed, and what is loaded always is. The
  last line for a key decides, in every section.

Where code and comments disagree, the model follows the code:

- ysf_bridge/ysf_protocol.go:307-308 speaks of a vote among the three copies of a protected voice bit; the code reads the
  middle copy alone.
- ysf_bridge/ysf_codec.go:10 names 0xFFFF as the CRC start value; the register starts at 0 and is complemented at the end.
- dmr_bridge/dmr_protocol.go:56-66 refers to an ETSI table; the model only takes the order that the code uses.
- iax_bridge/codecs.go:104 calls the codec G.726; nothing here says that it conforms to that recommendation.

Seven findings are stated as lemmas with their exact conditions:

- An SVX talker's over reaches YSF whole if and only if no YSF stream is open when it begins, or no samples arrive before
  the watchdog has ended that (`YsfBridge.SamplesAreSplit`); one that ends before is lost altogether
  (`YsfBridge.TalkerIsLost`, with an over in `YsfBridge.CollisionLosesTheOver`).
- What a YSF bridge has sent is whole transmissions if and only if talkers take turns, the last one has stopped, and
  less than a packet's worth of samples gets through between them (`YsfOvers.WholeTransmissionsIff`).
- What comes back of its own over after the talker has stopped matters to a YSF bridge if and only if its callsign is
  longer than ten bytes or has blanks at its ends, and the header or a voice packet is among it, or just the terminator
  while another stream is still open (`YsfBridge.EchoIsRepeatedIff`, with a callsign in
  `YsfBridge.ElevenLettersAreRepeated`).
- The estimate of the IAX codec wraps if and only if its true value does not fit 32 bits
  (`G726Overflow.WrapsIffTooLarge`), and ordinary input makes it (`G726Overflow.FourSamplesRunAway`,
  `G726Overflow.HalfWaveRunsAway`).
- Two inverted bits of a YSF header are too many if and only if both lie on one of four light differences and the header
  has a zero in the last data bit that this one changes (`FichRepair.TwoFlipsRepairedIff`); for three the condition is
  `FichRepair.ThreeFlipsRepairedIff`.
- A DMR call that draws stream id 0, or a talkgroup beyond 24 bits, has no start or is not heard
  (`DmrLink.PeersHearOneCall`).
- The configuration file loses what is not well formed (`ReflectorConfig.SavedComesBack`).

## Model
| member | source | states |
|---|---|---|
| Trellis.MetricIsLowerBound | ysf_bridge/ysf_codec.go:119-164 | No run of the encoder, from any start state, that ends in state s is nearer to the received symbols than the metric of s |
| Trellis.SurvivorAttains | ysf_bridge/ysf_codec.go:119-177 | The run that the decisions lead back to from s ends in s and lies exactly as far from the received symbols as the metric says: with the bound above, the metric is the minimum and is attained |
| Trellis.TiesGoToOnes | ysf_bridge/ysf_codec.go:142-164 | Among closest runs the decoder takes the one that has a one where the two last differ: its tie rule, as a property of what it returns |
| Trellis.MetricsBounded | ysf_bridge/ysf_codec.go:111-114 | After n symbols no metric exceeds 2n, so the 16-bit metrics never wrap within the 180 steps the decoder has room for |
| Viterbi.YsfConvolution.Start | ysf_bridge/ysf_codec.go:119-125 | The decoder forgets what it received; all sixteen metrics are 0, so every start state is possible |
| Viterbi.YsfConvolution.Decode | ysf_bridge/ysf_codec.go:132-164 | The sixteen in-place butterflies and the bit-packed decision word keep metrics and decisions those of the received symbols, one symbol longer |
| Viterbi.YsfConvolution.Chainback | ysf_bridge/ysf_codec.go:167-177 | Writes, bit for bit, the oldest register bits along the optimal run that ends in state 0, and touches no other bit of the buffer |
| Viterbi.EncodeYsfConv | ysf_bridge/ysf_codec.go:180-196 | Every pair of output bits is the output of the K=5 register run over the data from an empty register; the other bits of the buffer keep their value |
| Bits.ByteIsSumOfBits | ysf_bridge/ysf_codec.go:14-24 | Bit 0 of a byte is worth 128, bit 7 one |
| MinimumDistance.Linear | ysf_bridge/ysf_codec.go:180-196 | The code is linear: the distance of two runs is the weight of their difference |
| MinimumDistance.WeightByLastBit | ysf_bridge/ysf_codec.go:180-196 | A difference whose last set bit is at position m costs at least LeastWeight(m) channel bits (2, 3, 4, 5, 6, 7 as m grows), although the start state is unknown |
| MinimumDistance.WeightIsAttained | ysf_bridge/ysf_codec.go:180-196 | Those weights are exact: for every m some run has exactly that weight |
| MinimumDistance.DamageStaysEarly | ysf_bridge/ysf_codec.go:119-177 | Whatever is received, the decoder output agrees with what was sent wherever LeastWeight exceeds twice the number of damaged channel bits |
| Golay.Golay23Encode | ysf_bridge/ysf_codec.go:72-82 | The bit-serial division loop leaves the data in the upper twelve bits and the remainder below |
| Golay.Golay24Encode | ysf_bridge/ysf_codec.go:85-92 | The 24-bit word is the 23-bit word followed by its overall parity |
| Golay.Golay24Decode | ysf_bridge/ysf_codec.go:100-103 | Returns the upper twelve bits and accepts exactly the words that re-encode to themselves |
| Golay.DecodesToData | ysf_bridge/ysf_codec.go:85-103 | Every encoded word decodes, and to the data it was made from |
| Golay.CodewordIsMultiple | ysf_bridge/ysf_codec.go:72-82 | Every 23-bit code word is a multiple of the generator polynomial over GF(2) |
| Golay.EvenWeight | ysf_bridge/ysf_codec.go:85-92 | Every 24-bit word has an even number of ones |
| Golay.ParityDeterminesData | ysf_bridge/ysf_codec.go:72-103 | Two valid words whose lower twelve bits agree are the same word: no damage confined to the data half is accepted |
| Crc.CrcCcitt16 | ysf_bridge/ysf_codec.go:200-213 | The byte and bit loops compute the complemented register of the whole buffer, whose value CrcIsRemainder states |
| CcittRemainder.CrcIsRemainder | ysf_bridge/ysf_codec.go:200-213 | For every data, its bits and sixteen zeros are a multiple of x^16 + x^12 + x^5 + 1 but for the complement of the sixteen bits of the check sequence |
| CcittRemainder.DivisionIsUnique | ysf_bridge/ysf_codec.go:200-213 | No other sixteen bits are that remainder |
| CcittRemainder.AddedCrcIsRemainder | ysf_bridge/ysf_codec.go:217-224 | What is added at the end of a buffer is that check sequence, its upper byte first |
| Crc.AddCrcCcitt162 | ysf_bridge/ysf_codec.go:217-224 | Only the last two bytes change, and only in buffers of three bytes or more |
| Crc.CheckCrcCcitt162 | ysf_bridge/ysf_codec.go:227-233 | Accepts exactly the buffers of three bytes or more whose last two are the check sequence of the rest |
| Crc.WithCrcChecks | ysf_bridge/ysf_codec.go:217-233 | The check accepts what was added, exactly for buffers of three bytes or more |
| Ccitt.StepsInjective | ysf_bridge/ysf_codec.go:204-210 | In either bit order, stepping the register is injective for any number of steps |
| Ccitt.ChecksIffResidue | ysf_bridge/ysf_codec.go:227-233 | In either bit order, the check accepts exactly the buffers whose register, run over data and check sequence alike, ends in a fixed residue |
| Crc.DetectsBurst | ysf_bridge/ysf_codec.go:200-233 | A checked buffer of any length that changes at most within two neighbouring bytes, be it in the data, in the check sequence or across the border, is accepted if and only if nothing has changed |
| Fich.SlotInvertsPosition | ysf_bridge/ysf_codec.go:36-57 | The FICH interleave table is injective: each of the 100 dibits has a place of its own |
| Fich.PositionInvertsSlot | ysf_bridge/ysf_codec.go:36-57 | And it is onto: each even bit position among the 200 belongs to a dibit |
| Fich.EncodeFich | ysf_bridge/ysf_protocol.go:181-235 | The whole chain of CRC, Golay packing, convolution and interleaving in place; buffers that are too short stay as they are |
| YsfLayout.HeaderBits | ysf_bridge/ysf_protocol.go:181-235 | Symbol t of every header stands in the channel bits 2(t/5)+40(t mod 5) and the next: the parities of the coded bits t, t-3, t-4 and t, t-1, t-2, t-4 |
| YsfLayout.CodedLayout | ysf_bridge/ysf_protocol.go:190-222 | The coded bits are four words, each twelve bits of the header with its check sequence, in order, and twelve of the Golay code, then eight zeros |
| Fich.DecodeFich | ysf_bridge/ysf_protocol.go:237-281 | Returns true exactly for headers whose four Golay words and CRC are right, and then writes the six bytes that the optimal run carries; otherwise the header is untouched or holds what failed the CRC |
| YsfLayout.AcceptedIffChecked | ysf_bridge/ysf_protocol.go:237-281 | Of six bytes coded and undamaged the header comes back as it was, and is accepted if and only if their last two are the check sequence of the others |
| Fich.DistanceIsDamage | ysf_bridge/ysf_protocol.go:181-281 | The distance between the sent run and the received symbols is the number of inverted channel bits |
| Fich.DecodedAfterDamage | ysf_bridge/ysf_protocol.go:181-281 | After at most three inverted channel bits everything behind the first decoded byte is right; after at most one, everything is |
| Fich.DamageRepairedOrNoticed | ysf_bridge/ysf_protocol.go:181-281 | For every header, inverting any one of the 200 channel bits is repaired; inverting any two or three is repaired or noticed: a header that was not sent is never accepted |
| FichRepair.AcceptedIffDataSurvives | ysf_bridge/ysf_protocol.go:237-281 | With up to three inverted channel bits a header is accepted if and only if the optimal run carries exactly the data bits that were sent |
| FichRepair.OnlyLight | ysf_bridge/ysf_codec.go:180-196 | Exactly four differences reach the data bits at the price of four channel bits and end within the first two of them; all others that reach the data cost more |
| FichRepair.TwoFlipsRepairedIff | ysf_bridge/ysf_protocol.go:181-281 | Any two inverted channel bits of any header are repaired unless both lie on one of those four differences and the header has a zero in the last data bit it changes; then the header is rejected |
| FichRepair.LateOrOnesSurviveTwo | ysf_bridge/ysf_protocol.go:181-281 | So two flips are repaired wherever one of them is behind the first six symbols, and everywhere if the first two header bits are ones |
| FichRepair.DataSurvivesIff | ysf_bridge/ysf_codec.go:132-177 | For any number of inverted channel bits: the data bits survive unless some other run is closer than all runs with the same data, or as close as the closest of them where the sent run has a zero at its last difference |
| FichRepair.ThreeFlipsRepairedIff | ysf_bridge/ysf_protocol.go:181-281 | Up to three inverted channel bits are repaired unless one of the differences that touch at most two channel bits per flip, all within the first eight data bits, beats the sent run; then the header is rejected |
| FichRepair.LateFlipsSurviveThree | ysf_bridge/ysf_protocol.go:181-281 | So three flips are repaired wherever two of them are behind the first twelve symbols |
| FichRepair.ThreeCanBeTooMany | ysf_bridge/ysf_protocol.go:181-281 | For every header there are three bits whose inversion makes the receiver reject it |
| Buffers.PadCallsign | ysf_bridge/ysf_protocol.go:48-55 | Cut or padded with spaces to the field |
| Ysfd.BuildYsfd | ysf_bridge/ysf_protocol.go:143-173 | The 155 bytes hold signature, three padded callsigns, counter and end bit, sync, encoded header and payload |
| YsfLayout.PacketLayout | ysf_bridge/ysf_protocol.go:143-173 | Every packet byte by byte: YSFD, three callsign fields at 4, 14 and 24, byte 34 twice the counter modulo 128 plus the end bit, the sync, and the header fields as numbers |
| Ysfd.ParseYsfd | ysf_bridge/ysf_protocol.go:116-140 | Short or foreign datagrams give nothing; a header that does not decode leaves the five header fields zero |
| YsfLayout.ParseLayout | ysf_bridge/ysf_protocol.go:116-140 | Exactly the datagrams of 155 bytes or more that begin with YSFD parse, and every field is read from its place; the header fields are 0 where the header is not accepted |
| Ysfd.PacketRoundTrip | ysf_bridge/ysf_protocol.go:116-173 | Every packet parses back to what it was built from, each field cut to its width and each callsign padded or cut to ten bytes |
| Ysfd.DamagedPacketParses | ysf_bridge/ysf_protocol.go:116-173 | With up to three header channel bits inverted a packet still parses to the fields that were sent or, where two or three flips are too many, to zero fields; all else comes back |
| Vd2.SourceInvertsPosition | ysf_bridge/ysf_codec.go:28-33 | The 26 by 4 interleave table is a permutation of the 104 positions |
| Vd2.Whiten | ysf_bridge/ysf_protocol.go:302-305 | Whitening inverts exactly the bits of the whitening sequence |
| Vd2.ExtractVd2Ambe | ysf_bridge/ysf_protocol.go:287-331 | Five frames of 49 voice bits, read from the middle copy of each tripled bit of a deinterleaved, dewhitened channel |
| Vd2.PackVd2Ambe | ysf_bridge/ysf_protocol.go:336-391 | Ninety bytes: per section five zero bytes and the tripled, whitened, interleaved channel |
| YsfLayout.VoiceInPayload | ysf_bridge/ysf_protocol.go:336-391 | Channel bit q of section j stands in payload bit 144j+40+4(q mod 26)+q/26, whitened: three times each of the first 27 voice bits, once each of the next 22 |
| YsfLayout.VoiceOutOfPayload | ysf_bridge/ysf_protocol.go:287-331 | Of any payload, voice bit i is taken from the middle one of its three places, or its only one, and dewhitened; bits 49 to 55 are zero |
| YsfLayout.WhiteningIsARegister | ysf_bridge/ysf_codec.go:59-63 | The whitening is the sequence of the register x^9 + x^5 + 1 from 100100111 on |
| Vd2.VoiceRoundTrip | ysf_bridge/ysf_protocol.go:287-391 | Any five frames come back from their payload bit for bit, except that bits 49 to 55 of each are cleared |
| YsfClient.Client.StartTX | ysf_bridge/ysf_client.go:103-120 | Sends one header packet and restarts the counters |
| YsfClient.Client.SendVoice | ysf_bridge/ysf_client.go:123-136 | Sends one voice packet with the counters as they stand, then advances them |
| YsfClient.Client.StopTX | ysf_bridge/ysf_client.go:139-154 | Sends one terminator with the end bit and advances the packet counter alone |
| YsfClient.Client.Transmit | ysf_bridge/ysf_client.go:103-154 | A whole over puts header, one packet per voice block and terminator on the wire, in that order and nothing else |
| YsfClient.CountersAt | ysf_bridge/ysf_client.go:123-136 | The k-th voice packet carries counter k+1 modulo 128 and frame number k modulo 7 |
| YsfClient.TransmissionParses | ysf_bridge/ysf_client.go:103-154 | Every packet of every over parses back with its kind, numbers, end bit only on the terminator, and the voice bits that went in |
| YsfLayout.OverOnTheWire | ysf_bridge/ysf_client.go:103-154 | Packet k of every over carries the callsign twice, ALL as destination and the number k modulo 128, only the last the end bit, kind, frame number, 6, VoIP and data type in the header, and its five frames bit by bit |
| YsfReceive.ChunksConserve | ysf_bridge/main.go:272-420 | The 480-sample chunks of a stream are its samples in order, followed by fewer than 480 zeros that all stand in the last chunk |
| YsfReceive.FullGrows | ysf_bridge/main.go:360-391 | Appending up to 480 samples completes at most one chunk, and cutting it off leaves the rest of the stream |
| YsfReceive.CallsAreBracketed | ysf_bridge/main.go:272-420 | Over any streams TalkerStart and TalkerStop alternate, beginning with a start, and audio is sent only in between |
| YsfReceive.Receiver.VoiceCallback | ysf_bridge/main.go:310-397 | One accepted frame moves the streams by exactly its opening, its voice and its ending, or not at all while an SVX talker is on |
| YsfReceive.FrameEffects | ysf_bridge/main.go:310-397 | What each kind of frame does to the streams: header and voice open one, with a reset and no samples; voice is added before the end bit ends the stream; a terminator ends it; a frame of the fourth kind without the end bit changes nothing |
| YsfReceive.Receiver.StopYsfRxStream | ysf_bridge/main.go:272-308 | Closes an open stream with its padded last chunk and one TalkerStop, and does nothing when none is open |
| YsfReceive.Receiver.WatchdogTick | ysf_bridge/main.go:403-420 | A stale stream is closed as a terminator would close it |
| YsfLink.OwnPacketsRecognised | ysf_bridge/ysf_client.go:203-207 | A bridge recognises its own packets if and only if its callsign fits ten bytes and has no blanks at its ends |
| YsfLink.OwnMeans | ysf_bridge/ysf_client.go:203-207 | A packet is taken for the own one if and only if the callsign stands in the gateway field, in either case of its letters, with nothing but blanks around it, and has none at its ends itself |
| YsfLink.Dispatch | ysf_bridge/ysf_client.go:191-218 | Exactly the VD mode 2 frames of other gateways reach the callback |
| YsfLink.WhatPasses | ysf_bridge/ysf_client.go:191-218 | Polls, foreign datagrams, own packets and packets whose data type is not 2 are dropped; all others are delivered as they parse |
| YsfLink.RunReader | ysf_bridge/ysf_client.go:157-220 | Over any datagrams the receiver ends in the streams that the frames, one by one, lead to, or where it was while an SVX talker is on |
| YsfLink.TransmissionIsHeard | ysf_bridge/ysf_client.go:103-220 | Whatever one bridge transmits, one with another callsign hears exactly once, as one closed stream with all the voice in order, or behind what an open stream held and ending that |
| YsfBridge.Bridge.OnTalkerStart | ysf_bridge/main.go:201-219 | Another talker on the talkgroup stops the listening, empties the sample buffer and sends the header; anyone else changes nothing |
| YsfBridge.Bridge.OnAudio | ysf_bridge/main.go:160-199 | The samples join the buffer, and every 800 of them leave as one voice packet; while a YSF stream is on they are dropped |
| YsfBridge.Bridge.OnTalkerStop | ysf_bridge/main.go:221-254 | The listening resumes, what is buffered goes out padded with zeros, then the terminator |
| YsfBridge.TalkersThatCount | ysf_bridge/main.go:201-254 | Talkers on other talkgroups and with the own callsign, in either case, change nothing; all others set the flag and send a header when they start, and clear it and send a terminator last when they stop |
| YsfBridge.Bridge.OnDatagram | ysf_bridge/main.go:310-397 | A frame that the reader lets through moves the streams, unless an SVX talker is on |
| YsfBridge.Bridge.OnTick | ysf_bridge/main.go:399-420 | A stale stream is closed as a terminator would close it, and the sending side is untouched |
| YsfBridge.Bridge.Serve | ysf_bridge/main.go:117-420 | Over any datagrams, watchdog ticks, SVX talkers and SVX audio in any order, the bridge with all its objects is in the state that the steps lead to |
| YsfBridge.TalkerIsSent | ysf_bridge/main.go:160-254 | Whatever goes on when a talker begins, and whatever arrives before the next start or stop of a talker: the samples that pass go out as one transmission in order with zeros only behind the last, and an open YSF stream is left as it was or ended by the watchdog |
| YsfBridge.SamplesAreSplit | ysf_bridge/main.go:160-166 | What is dropped comes before what passes and nothing else is missing; all samples of an over pass if and only if no YSF stream is open when it begins, or none arrive before the watchdog ends that |
| YsfBridge.OpenWasHeard | ysf_bridge/main.go:310-420 | In every reachable state an open stream has had a frame, so a late tick always ends it |
| YsfBridge.TalkerIsLost | ysf_bridge/main.go:160-254 | An over that begins while a stream is open and ends before a late tick goes out as header and terminator without any voice |
| YsfBridge.CollisionLosesTheOver | ysf_bridge/main.go:160-254 | For instance, from the start: a header from another gateway, then a talker with any samples at all |
| YsfBridge.VoicesFollowTheSamples | ysf_bridge/main.go:180-188 | Frame i of packet j is what the vocoder makes of the first 5j+i+1 chunks of the samples, after all it was fed before |
| YsfBridge.ChunksAreTheSamples | ysf_bridge/main.go:180-188 | Chunk k is the k-th 160 samples of the over, with zeros behind the last |
| YsfBridge.EchoIsRepeatedIff | ysf_bridge/main.go:201-391 | Packets j and on of its own over that come back after the talker stopped change something at a bridge if and only if it does not recognise its callsign and the header or a voice packet is among them, or just the terminator while another stream is open; then exactly one stream ends, with their voice behind what it held |
| YsfBridge.ElevenLettersAreRepeated | ysf_bridge/main.go:36-36 | DB0REFLECTR is such a callsign: a last voice packet that comes back late goes out to SVX, as an over of its own or at the end of the one that is still open |
| YsfOvers.WholeTransmissionsIff | ysf_bridge/main.go:160-254 | Over any events from the start, what the bridge has sent is a list of whole transmissions if and only if starts and stops of talkers take turns, no talker is on at the end, and between talkers fewer samples than one packet holds get through |
| RegistryProtocol.StepKeeps | audio_bridge/main.go:176-439 | Every critical section, in any interleaving with a connect in progress, keeps: publishers are live sessions of their own talkgroup, every talkgroup with a session has one, unused sessions have a timer, connections are accounted for |
| RegistryProtocol.RunsKeep | audio_bridge/main.go:176-439 | So do all runs from the empty registry |
| RegistryProtocol.ExactlyOnePublisher | audio_bridge/main.go:225-235 | In every reachable state each talkgroup with a session has exactly one live session that passes the publishing check of the audio callback |
| RegistryProtocol.RefCountConserved | audio_bridge/main.go:176-284 | In every run a live session counts 1 plus the connects minus the disconnects of its callsign since the connect that installed it |
| RegistryProtocol.NoIdleLeak | audio_bridge/main.go:267-307 | A session without a pending timer of its own has had at least as many connects as disconnects since it was installed: no unused session is forgotten |
| RegistryProtocol.GraceTakesOnlyItsOwn | audio_bridge/main.go:267-306 | In every run, the end of a grace timer takes a session out if and only if a disconnect of that very session started the timer and the connects since its installation do not make up for the disconnects; every other session is as it was |
| RegistryProtocol.NoConnectionForgotten | audio_bridge/main.go:176-439 | Every connection ever installed is live, closed or lost, and never two of these |
| Registry.Registry.constructor | audio_bridge/main.go:40-47 | An empty registry is the start of the protocol |
| Registry.Registry.ConnectBegin | audio_bridge/main.go:176-194 | Takes exactly the connect step of the protocol and keeps its invariant: bump, replace or dial, decided on the entry that is there |
| Registry.Registry.ConnectFailed | audio_bridge/main.go:198-219 | Takes the failing half of a connect: the session it replaced stays gone, and nothing else happens |
| Registry.Registry.ConnectDone | audio_bridge/main.go:221-256 | The second half installs a fresh entry and makes it publisher only where there is none |
| Registry.Registry.RemovePublisher | audio_bridge/main.go:415-428 | Whatever the order of the map: a publisher is replaced by another session of the talkgroup if there is one, and only then |
| Registry.Registry.Disconnect | audio_bridge/main.go:267-287 | Takes exactly the disconnect step of the protocol; a grace goroutine starts exactly when no user is left, and holds the entry |
| Registry.Registry.GraceOver | audio_bridge/main.go:288-306 | Takes exactly the timer step of the protocol, where the goroutine compares entries by reference |
| Registry.Registry.ForceDisconnect | audio_bridge/main.go:310-323 | Takes exactly the forced removal of the protocol, whatever the count |
| Registry.Registry.Cleanup | audio_bridge/main.go:327-340 | Takes exactly the lost-connection step of the protocol: the session that holds the client goes, and no other |
| Registry.Registry.SelectTG | audio_bridge/main.go:342-359 | Takes exactly the move of the protocol, after which a live session has the talkgroup and no other entry another one |
| RegistryEffects.SelectTgMoves | audio_bridge/main.go:342-359 | select_tg of a live callsign leaves its session on that talkgroup, with its connection and users, every other session as it was, and changes nothing for a callsign without one |
| RegistryEffects.SelectTgPublishes | audio_bridge/main.go:342-359 | The moved session publishes its new talkgroup if and only if nobody did, or it did itself and is alone there |
| RegistryEffects.OnTheTalkgroupAskedFor | audio_bridge/main.go:176-359 | In every run a live session is on the talkgroup of the last select_tg of its callsign since its connection was installed, or else of the connect that asked for it |
| RegistryEffects.PublisherStays | audio_bridge/main.go:176-439 | Nobody takes a talkgroup from a publisher that stays on it; only its own select_tg of that talkgroup can hand it on |
| RegistryEffects.BystandersKeep | audio_bridge/main.go:176-439 | No operation touches another session than the one it is about |
| RegistryEffects.ConnectBegins | audio_bridge/main.go:176-194 | A connect of a session that is live on the talkgroup adds one user; any other ends the session there is, closes its connection and dials |
| RegistryEffects.ConnectEnds | audio_bridge/main.go:221-256 | A connect that succeeds leaves a session on the talkgroup it asked for, with a new connection and one user, and publishing if nobody was |
| RegistryEffects.DisconnectTakesOne | audio_bridge/main.go:267-287 | A disconnect takes off one user and leaves the session where it is |
| RegistryEffects.ForceDisconnectEnds | audio_bridge/main.go:310-323 | After a forced disconnect the session is gone and its connection closed |
| RegistryEffects.LossEnds | audio_bridge/main.go:327-340 | After the loss of a connection the session that held it is gone, and no other |
| RegistryEffects.StopAllEnds | audio_bridge/main.go:430-439 | After shutdown no session and no publisher is left and every connection is closed |
| Registry.Registry.CurrentTG | audio_bridge/main.go:366-373 | The talkgroup of a live session, 0 for a callsign without one: what a command without a talkgroup falls back on |
| Registry.Registry.MayPublish | audio_bridge/main.go:225-235 | For a live entry, the callback publishes exactly if the entry is the publisher of its talkgroup |
| Registry.Registry.StopAll | audio_bridge/main.go:430-439 | Takes exactly the shutdown step of the protocol: every client is closed and both maps are empty |
| DmrBurst.DeinterleaveDMR | dmr_bridge/dmr_protocol.go:70-97 | The three frames are the bits of the two halves dealt out in turn |
| DmrLayout.FrameBitOutOfBurst | dmr_bridge/dmr_protocol.go:70-97 | And is read from there, in any 33 bytes |
| DmrBurst.InterleaveDMR | dmr_bridge/dmr_protocol.go:101-130 | The burst holds the frames bit by bit in turn around the 48 sync bits |
| DmrLayout.FrameBitInBurst | dmr_bridge/dmr_protocol.go:101-130 | Bit b of frame f is burst bit 3b+f, or 48 more from 108 on |
| DmrBurst.BuildAMBEPayload | dmr_bridge/dmr_protocol.go:140-156 | Burst A carries the first six bytes of the voice sync, the others a null field |
| DmrLayout.SyncInBurst | dmr_bridge/dmr_protocol.go:140-156 | Bits 108 to 155 are 07 55 FD 7D F7 5F in burst A and zero in the others |
| DmrBurst.FramesComeBack | dmr_bridge/dmr_protocol.go:70-130 | Deinterleaving undoes interleaving, whatever the sync field |
| DmrBurst.BurstComesBack | dmr_bridge/dmr_protocol.go:70-130 | Interleaving undoes deinterleaving around the sync field of the burst: together a bijection on all 264 bits |
| DmrPacket.BuildDMRDFrame | dmr_bridge/dmr_protocol.go:159-189 | Writes the 53 bytes with every field as a number in its place |
| DmrPacket.PacketIsLaidOut | dmr_bridge/dmr_protocol.go:159-189 | In every frame built, 65536 b5 + 256 b6 + b7 is the source modulo 2 to the 24, likewise the destination at 8; the repeater stands at 11 and the stream at 16; byte 15 is 128 slot + 64 call type + 16 frame type + voice number, each modulo its range; the payload begins at 20 |
| DmrPacket.ParseDMRDFrame | dmr_bridge/dmr_protocol.go:205-229 | Short or foreign datagrams give nothing; of all others each field is the number in its place |
| DmrPacket.ParsesByLayout | dmr_bridge/dmr_protocol.go:205-229 | Exactly the datagrams of 53 bytes or more that begin with DMRD parse, and their fields are those of the same layout and no wider than their places |
| DmrPacket.LayoutDecides | dmr_bridge/dmr_protocol.go:159-229 | So the datagram decides every field |
| DmrPacket.PacketRoundTrip | dmr_bridge/dmr_protocol.go:159-229 | Every frame comes back cut to the widths of its fields: 24-bit ids, one-bit slot and call type, two and four bits for the frame type |
| DmrPacket.ParseRoundTrip | dmr_bridge/dmr_protocol.go:159-229 | And building what was parsed gives the 53 bytes again, for all datagrams that parse |
| DmrPacket.BuildVoiceLCHeader | dmr_bridge/dmr_protocol.go:323-346 | The header packet with its link control and data sync |
| DmrPacket.BuildVoiceTerminator | dmr_bridge/dmr_protocol.go:349-368 | The terminator packet, likewise |
| DmrPacket.LinkControlIsLaidOut | dmr_bridge/dmr_protocol.go:323-385 | The payload of both: 3 or 0 for the call type, the destination at 3, the source at 6, the data sync D5 D7 F7 7F D7 57 at 13, zeros elsewhere |
| DmrClient.SeqCounts | dmr_bridge/dmr_client.go:291-323 | Sequence numbers are consecutive modulo 256 |
| DmrClient.Client.StartTX | dmr_bridge/dmr_client.go:272-288 | Draws a stream id, empties the buffer, sends the header as number 0 |
| DmrClient.Client.SendVoice | dmr_bridge/dmr_client.go:291-326 | Two frames of three are only buffered; the third sends one burst and advances both counters |
| DmrClient.Client.StopTX | dmr_bridge/dmr_client.go:329-364 | What is buffered goes out padded with silence, then the terminator; an empty buffer sends the terminator alone |
| DmrClient.Client.Transmit | dmr_bridge/dmr_client.go:272-364 | A whole over of any number of frames is header, bursts of the padded frames and terminator |
| DmrLayout.OverOnTheAir | dmr_bridge/dmr_client.go:272-364 | Packet k of every over has number k modulo 256, the own id as source and repeater, the talkgroup, slot and stream as numbers in their places; the first and last carry the ids again, the others three frames bit by bit, with B9 E8 81 48 and zeros for the missing ones |
| DmrLink.Receiver.Dispatch | dmr_bridge/dmr_client.go:225-266 | Foreign talkgroups, slots and own frames are ignored; header, terminator and voice make their callbacks |
| DmrLink.Receiver.RunReader | dmr_bridge/dmr_client.go:166-270 | Over any datagrams the callbacks are those of the dispatch, up to the first close from the master |
| DmrLink.ReturnsAtClose | dmr_bridge/dmr_client.go:212-216 | The reader returns if and only if a datagram begins with MSTCL |
| DmrLink.PingsAreAnswered | dmr_bridge/dmr_client.go:203-210 | Exactly the datagrams that begin with MSTPING are answered, and do nothing else |
| DmrLink.PacketsAreNumbered | dmr_bridge/dmr_client.go:272-364 | The packets of any over parse as header, voice and terminator, numbered in order modulo 256, with bursts cycling modulo 6 and a sync at the start of each cycle |
| DmrLink.TransmissionIsHeard | dmr_bridge/dmr_client.go:166-364 | A receiver either takes a whole over, its voice in order and padded with silence, or takes no notice of any of it; which of the two is decided by talkgroup, slot and id on the air |
| DmrLink.PeersHearOneCall | dmr_bridge/dmr_client.go:166-364 | An idle peer with the same settings hears exactly one start, the frames with less than a burst of silence, and one end, if and only if the stream id is not 0, the talkgroup fits 24 bits and the slot one |
| Odmrtp.Reader.RunReader | dmr_bridge/odmrtp_client.go:166-270 | Over any datagrams and silences the reader makes the callbacks of the state machine, up to the first close, and says whether there was one |
| Odmrtp.DatagramIsRead | dmr_bridge/odmrtp_client.go:208-270 | What every datagram does, by its bytes: a super header of the talkgroup in bytes 26 to 29 starts the call of the source in bytes 22 to 25, audio brings three frames from byte 18 on, terminator and silence end the call, close ends the reader, and nothing else does anything |
| Odmrtp.Reader.EndCall | dmr_bridge/odmrtp_client.go:274-285 | Ends an open call with the source it has, and nothing otherwise |
| Odmrtp.CallsAreBracketed | dmr_bridge/odmrtp_client.go:166-285 | Over any datagrams and silences, starts and ends alternate, each end carries the source of its start, voice lies inside a call of its own source, and a call is left open exactly when the reader ends inside one |
| Odmrtp.AudioIsConserved | dmr_bridge/odmrtp_client.go:238-258 | The frames of all audio packets before the first close reach the voice callback in order, none dropped or doubled, announced or not |
| G726.CodecState.Encode | iax_bridge/codecs.go:158-214 | One sample to one code, with 32-bit wrap-around, and the state of a decoder that gets that code |
| G726.CodecState.Decode | iax_bridge/codecs.go:216-241 | One code to one clamped sample |
| G726.CodecState.UpdateState | iax_bridge/codecs.go:253-302 | The shifts and loops over the past update all arrays in place to the next state, whose numbers OneStep states |
| G726Adaptation.OneStep | iax_bridge/codecs.go:216-302 | After any code: the difference it stands for (0, 0, 1, 3, 6, 13, 26 or 53, negative from code 8 on) enters the past, the output is the estimate plus it, cut to 16 bits, each a moves by 192 towards equal signs, each b by 128, up where new and past difference have the same sign and down otherwise, each within its limit |
| G726Adaptation.SignsDecide | iax_bridge/codecs.go:282-292 | Where new and past difference have the same sign b does not fall, where the signs differ it does not rise, and without a difference it stays |
| G726Adaptation.OneSideRaisesAll | iax_bridge/codecs.go:282-292 | From any reachable state, 261 codes of magnitude 2 or more on one side, whichever it is, bring all six b to 16383 |
| G726Adaptation.CodeIsLevel | iax_bridge/codecs.go:174-209 | The code of a sample: its side of the estimate, and the level 0, 2, 3, 6, 12, 23, 46 or 96 that its distance has reached |
| G726Adaptation.EstimateIs | iax_bridge/codecs.go:159-170 | The estimate is the plain value of the two sums modulo 2 to the 32, divided by 16384 and rounded down |
| G726.G726Codec.Encode | iax_bridge/codecs.go:136-147 | A frame of even length to packed codes; one of odd length runs out of its buffer after all its samples have moved the state |
| G726Adaptation.CodeAt | iax_bridge/codecs.go:136-147 | Code i is that of sample i in the state that the codes before it leave |
| G726Adaptation.PackedAt | iax_bridge/codecs.go:136-147 | Byte i is 16 times code 2i plus code 2i+1 |
| G726.G726Codec.Decode | iax_bridge/codecs.go:149-156 | Any bytes to twice as many samples; the state runs on |
| G726Adaptation.OutputAt | iax_bridge/codecs.go:149-156 | Sample i is that of code i in the state that the codes before it leave |
| G726Adaptation.UnpackedAt | iax_bridge/codecs.go:149-156 | The codes of a byte are its upper half and its lower half, in that order |
| G726.AfterKeeps | iax_bridge/codecs.go:243-312 | From any code the coefficients stay within 12288 and 16383, the differences within 53, the reconstruction within 131125, and the step size stays 544 |
| G726.StepSizeNeverAdapts | iax_bridge/codecs.go:243-312 | After any bytes at all a decoder still has the step size it started with: the adaptation is never reached |
| G726.FirstSumIsExact | iax_bridge/codecs.go:159-163 | The first sum of products never wraps |
| G726Overflow.WrapsIffTooLarge | iax_bridge/codecs.go:164-169 | The second sum is exact if and only if its true value fits 32 bits: no earlier wrap can spoil it |
| G726Overflow.AtLimitWrapsIff | iax_bridge/codecs.go:164-169 | With both predictor coefficients at their limit it is exact if and only if the two last reconstructions add up to at most 174762 either way |
| G726Overflow.SmallPastNeverWraps | iax_bridge/codecs.go:164-169 | Whatever the coefficients, it is exact while the sizes of the two last reconstructions add up to at most 174762 |
| G726Overflow.WrapFlipsTheSample | iax_bridge/codecs.go:216-241 | When it wraps, the decoded sample is at the opposite end of the scale, whatever the code |
| G726Overflow.Overtakes | iax_bridge/codecs.go:253-302 | Once both coefficients are at their limit and two reconstructions at 110 or more on one side, the sum wraps within 38 codes, whatever they are |
| G726Overflow.AnyStateRunsAway | iax_bridge/codecs.go:253-302 | From any reachable state, 130 reconstructions in a row on one side and four codes that lift it further make the sum wrap within the next 38 codes, whatever they are |
| G726Overflow.LiftsRunAway | iax_bridge/codecs.go:253-302 | From the start, 66 codes in a row that lift the reconstruction, or 70 that lower it, make the sum wrap within the next 38, whatever they are |
| G726Overflow.HalfWaveRunsAway | iax_bridge/codecs.go:136-156 | Any recording that begins with 66 samples of 179 or more, or 70 of -179 or less, decodes to the opposite end of the scale at one of its first 105 or 109 samples, whatever follows |
| G726Overflow.FourSamplesRunAway | iax_bridge/codecs.go:136-156 | After 64 or more silent samples, four of 179 or more, or four of -179 or less, are enough: one of the first 39 samples after them decodes so at the latest, whatever it is |
| G726Overflow.ExtremeCodesRunAway | iax_bridge/codecs.go:149-156 | So does any stream that begins with 33 bytes 0x77 or 35 bytes 0xFF |
| G726.TracksWithoutOvershoot | iax_bridge/codecs.go:158-212 | In every reachable state the reconstruction lies between estimate and sample, within 69 of the sample if the estimate was within 95, and otherwise 53 nearer than the estimate, wherever the estimate is |
| G726.SilenceStaysSilence | iax_bridge/codecs.go:158-241 | Silence decodes to silence, however long |
| G726.Lockstep | iax_bridge/codecs.go:136-156 | Over any number of even frames, overflowing or not, the decoder puts out the encoder own reconstruction and ends in the encoder state |
| SlowData.NewSlowDataText | xlx_bridge/dcs_protocol.go:51-79 | Sync, four blocks of the padded text in eight frames, filler |
| SlowData.MessageLayout | xlx_bridge/dcs_protocol.go:51-79 | Character j of block b stands in frame 2b+1 or 2b+2 behind the header 0x43-b; frame 0 is 55 2D 16 and frames 9 to 20 are 16 29 F5 |
| SlowData.SlowDataDecoder.Feed | xlx_bridge/dcs_protocol.go:99-121 | One frame moves the mini-packet buffer and, at six bytes, one block |
| SlowData.SlowDataDecoder.Reset | xlx_bridge/dcs_protocol.go:92-95 | Forgets which blocks are there, but not what they hold |
| SlowData.SlowDataDecoder.Text | xlx_bridge/dcs_protocol.go:139-150 | Empty until all four blocks are there, then their bytes without trailing blanks and zeros |
| SlowData.TextArrives | xlx_bridge/dcs_protocol.go:51-150 | After any n frames of a stream, n at least 9, a decoder in any state shows exactly the text sent, right-trimmed; a reset one shows nothing before |
| SlowData.ShownIsText | xlx_bridge/dcs_protocol.go:51-150 | What is shown is the first twenty characters of the text up to the last one that is neither blank nor null |
| SlowData.TrimTakesBlanks | xlx_bridge/dcs_protocol.go:149-149 | Trimming takes the blanks and nulls off the end, all of them and nothing else |
| SlowData.ShortTextsArriveWhole | xlx_bridge/dcs_protocol.go:58-63 | What is shown is the text itself if and only if it has at most twenty bytes and no trailing blanks or zeros |
| Dextra.DstarCRC | xlx_bridge/dextra_protocol.go:149-162 | The nested loops compute the reflected, complemented register |
| CcittRemainder.DstarCrcIsRemainder | xlx_bridge/dextra_protocol.go:149-162 | For every data, bits counted from the lowest of each byte: the check sequence is the complement of the remainder of the data times x^16 with its first sixteen bits inverted |
| Dextra.BuildDExtraVoiceHeader | xlx_bridge/dextra_protocol.go:50-88 | Fifty-six bytes: preamble, stream id, padded callsigns and the check sequence over the 39 bytes before it, low byte first |
| Dextra.HeaderLayout | xlx_bridge/dextra_protocol.go:50-88 | Byte by byte: DSVT, the stream id in bytes 12 and 13, second and first repeater, called and calling station and suffix at 18, 26, 34, 42 and 50, and the check sequence of bytes 15 to 53 behind them |
| Ccitt.SequencesDiffer | xlx_bridge/dextra_protocol.go:149-162 | In either bit order, data of one length that differ, but only within two neighbouring bytes, never share a check sequence |
| Dextra.HeaderDamageIsNoticed | xlx_bridge/dextra_protocol.go:50-88 | Every header built carries its check sequence, and after any change within two neighbouring bytes of body or check sequence it no longer does. No code here looks at it on the way in: the receivers meant are those of the network |
| ReflectorConfig.Load | app/services/reflector_config.rb:68-131 | Reading line by line gives the configuration of the text, and a missing file the empty one |
| ReflectorConfig.MissingIsEmpty | app/services/reflector_config.rb:68-70 | A missing file reads like an empty one, and what is then saved reads so too |
| ReflectorConfig.ReflectorConfig.Read | app/services/reflector_config.rb:73-128 | One line: comment, header, pair or none of these |
| ReflectorConfig.ReflectorConfig.Store | app/services/reflector_config.rb:90-128 | One pair goes to its section under the key of today |
| ConfigValues.ValueIsLast | app/services/reflector_config.rb:68-131 | For every text, said of its lines: a section holds a key exactly if a line under one of its headers sets it, with the value of the last such line, under MQTT_NAME where the line in [MQTT] says NAME; keys stand as they are first set, users and passwords sorted; talkgroups and trunks are those with a header |
| ConfigValues.SplitIsLines | app/services/reflector_config.rb:73-73 | The lines are the parts between the breaks |
| ConfigValues.PutKeys | app/services/reflector_config.rb:92-126 | Storing a pair replaces the one with its key where that stands, or adds it at the end |
| ReflectorConfig.ReflectorConfig.Save | app/services/reflector_config.rb:164-247 | The text written is that of the configuration, with trunks in the order of their names and talkgroups in that of their numbers |
| ConfigValues.SavedFile | app/services/reflector_config.rb:164-247 | The file line by line: every section under its name with a line for each pair, in their order, with the blank lines and the omissions of empty sections |
| ConfigValues.LessIsLexicographic | app/services/reflector_config.rb:130-131 | Names are ordered as in a dictionary |
| ReflectorConfig.LoadedIsWellFormed | app/services/reflector_config.rb:68-131 | Whatever stands in the file, what is loaded is well formed |
| ReflectorConfig.SavedComesBack | app/services/reflector_config.rb:68-247 | A configuration comes back from its file, pair by pair in the same order, if and only if it is well formed. Order counts here, which is why users and passwords must be sorted; two Ruby hashes are equal in any order |
| ReflectorConfig.LoadSaveLoad | app/services/reflector_config.rb:68-247 | For every text: loading, saving and loading again gives what the first load gave |
| ConfigText.SplitJoin | app/services/reflector_config.rb:245-246 | Lines without breaks come back from the joined text |
| ConfigText.DecimalReads | app/services/reflector_config.rb:80-81 | A talkgroup number written in decimal is read as itself |
| ConfigText.ToIntByPlaces | app/services/reflector_config.rb:80-81 | Its digits count by their places |
| ReflectorConfig.SortSorts | app/services/reflector_config.rb:130-131 | Users and passwords come out sorted, and none is lost or added |
| Routing.RoutesFor | app/controllers/dashboard_controller.rb:95-152 | Cluster and satellite talkgroups have one badge; all others that of the alias, of the local node and of each carrying peer, or a dash |
| Routing.BestLenIsBest | app/controllers/dashboard_controller.rb:87-88 | The best length is matched by an entry and exceeded by none |
| Routing.BestIsLongestClaim | app/controllers/dashboard_controller.rb:82-90 | The best of the mesh is the longest prefix of the talkgroup among local, remote and routable ones, 0 if there is none |
| Routing.OutSpecifiedIffShorter | app/controllers/dashboard_controller.rb:89-90 | A longer match exists somewhere exactly if the length is below the best of the mesh |
| Routing.PeerListedIffBest | app/controllers/dashboard_controller.rb:125-146 | A peer is listed if and only if its best match is the best of the mesh or, where nothing matches, it has the default route |
| Routing.BadgeTells | app/controllers/dashboard_controller.rb:125-146 | Owned if the best prefix is among the remote ones of the peer, relayed if it is only among the routable ones, default route if nothing matches and the peer has the wildcard, and no badge otherwise |
| Routing.BadgesInOrder | app/controllers/dashboard_controller.rb:125-146 | The badges come in the order of the peers |
| Routing.LocalIffBest | app/controllers/dashboard_controller.rb:117-122 | The local badge is there if and only if a local prefix is the best match of the mesh |
| Routing.MatchedIsRouted | app/controllers/dashboard_controller.rb:117-148 | A talkgroup that any prefix matches has at least one route |
| Routing.TiedPeersClaimOnePrefix | app/controllers/dashboard_controller.rb:125-146 | Peers that tie for a matched talkgroup all claim one and the same prefix |
| Routing.MultiPeerIffTie | app/controllers/dashboard_controller.rb:134-151 | The ambiguity flag is raised exactly when two peers are listed |

## Left out
- Sockets, timeouts, handshakes, reconnects, keep-alives, logging, Redis, MQTT and the Rails models and views: no state of theirs enters a theorem. A write that fails counts as written, and a datagram is given whole.
- Vocoders, filters, gain control and OPUS: the receive path takes one unknown function from everything fed since the last reset to 160 samples per frame; an OPUS error, which drops a chunk, is not modelled.
- Talker metadata written to Redis while a YSF stream is on: it does not touch the stream.
- YsfReceive.Receiver.VoiceCallback: runs as one step, because the theorems are about the order of frames, ticks and talkers; the separate locks inside it and an OPUS error, which drops a chunk, are not modelled.
- YsfReceive.Receiver.WatchdogTick: checks and closes in one step, where the source does so under two locks one after the other.
- YsfBridge.Bridge.Serve: takes each callback as one step; a YSF stream that opens between the packets of one audio callback, whose buffer lock is released for each, is not modelled.
- YsfBridge.EchoIsRepeatedIff: the reflector returns the packets unchanged and in order, and nothing else arrives among them.
- YsfLink.OwnPacketsRecognised: trims and folds ASCII only; the blanks and letters of the rest of Unicode are not modelled.
- Strings of the Go bridges are byte sequences; those of the Ruby code are sequences of characters without an encoding, and a file that is not valid in its encoding is not modelled.
- Registry.Registry.Disconnect: like the other commands it is only called while no connect is under way, because one goroutine reads all commands (audio_bridge/main.go:56-118); timers, clean-up and shutdown have no such restriction.
- Registry.Registry.ConnectDone: the dial and the talkgroup request between the two critical sections either fail or succeed; what they send is left out.
- Late frames: the callback of a session that was replaced checks its callsign alone; the theorem on publishers speaks of live sessions.
- refCount below zero: it can happen and is no invariant; the conservation theorem covers it.
- Fields of the codec state that nothing reads (ap, yl, td) and the last seven whitening bytes, which no voice channel reaches.
- G726.TracksWithoutOvershoot: is about one step and the estimate it starts from; where that estimate goes is the subject of the overflow lemmas.
- G726Overflow.HalfWaveRunsAway: like FourSamplesRunAway a family of inputs that overflow, not all of them; the exact condition is on the state.
- Golay error correction: the decoder only checks, so none is claimed.
- DmrPacket.BuildVoiceLCHeader: carries the link control as the source places it, without the BPTC(196,96) code.
- Bursts B to F carry a null embedded field in the source, and so here.
- Odmrtp.Reader.RunReader: takes the two-second silence as an input; keep-alives, the answer to a challenge, the thirty-second timeout and the sender are left out.
- SlowData.TextArrives: is about a stream from its first frame on; one that is joined later shows the text after the first whole superframe, by the same lemma.
- ReflectorConfig.Load: users and passwords that come from Redis when [REDIS] names a host are left out.
- ReflectorConfig.ReflectorConfig.Save: the backup of the old file is left out.
- Routing.RoutesFor: takes the prefix lists, the cluster flag, the parent and the alias as given; splitting them out of the configuration and the colours, titles and links of the badges are left out.
- µ-law and A-law, AGC, resampling, the Zello, AllStar, EchoLink and SIP bridges, plain field layouts of IAX2, USRP and SVX TCP: only easy members, or foreign code.
