# Device qualification, modelled and proved in Dafny

DAQ is a framework that qualifies network devices: it connects each device to a gateway of its own
group, runs a list of tests against it, mirrors its traffic, and lets it authenticate with 802.1X
against a RADIUS server. This project models the parts of it that carry the hard promises and proves
them for every input and every run.

| files | component |
|---|---|
| `Octets.dfy` | octet strings, network byte order, slicing with clipped bounds |
| `RadiusAttributes.dfy`, `RadiusList.dfy`, `RadiusRoundTrip.dfy` | RADIUS attributes, the attribute list, fragments of EAP-Message (sections 5 of RFC 2865, 5.13 of RFC 2869) |
| `RadiusTermination.dfy`, `RadiusMerge.dfy` | when the extraction loop ends, and where merging puts the EAP-Message |
| `RadiusPackets.dfy`, `RadiusAuthentication.dfy`, `RadiusReceived.dfy`, `RadiusWire.dfy`, `RadiusReceivedMa.dfy`, `RadiusOutcomes.dfy` | RADIUS packets, the in-place Message-Authenticator, the two hash checks (sections 3 of RFC 2865, 5.14 of RFC 2869) |
| `UserPassword.dfy` | User-Password hiding (section 5.2 of RFC 2865) |
| `EapMessages.dfy`, `EapLayout.dfy` | EAP in EAPOL in Ethernet (section 4 of RFC 3748) |
| `Authenticator.dfy`, `AuthenticatorRuns.dfy`, `AuthenticatorMessages.dfy` | the 802.1X authenticator: a machine per supplicant, timers, results |
| `Runner.dfy`, `RunnerRuns.dfy`, `RunnerQueue.dfy` | the device scheduler: host limit, queue, pool of gateway sets, groups, over every run |
| `RunnerLaws.dfy`, `RunnerRecords.dfy` | when testing ends, and the scheduler's counts, queue, set ids, devices and gateways step by step |
| `RunnerTables.dfy` | the scheduler's tables that can get out of order, and when they do |
| `RunnerLeaks.dfy`, `RunnerLosses.dfy`, `RunnerScenarios.dfy` | gateway sets that are lost for good, and runs that show what can happen |
| `HostLifecycle.dfy` | the life of one device under test |
| `GatewayPorts.dfy` | test port allocation and switch port numbers |
| `MirrorAcl.dfy`, `MirrorMeaning.dfy` | the mirror access lists and what their first matching rule means |
| `EventBuffer.dfy`, `Debounce.dfy` | the event client: text buffer and port debouncing |
| `Configurator.dfy` | deep merge and include chains of configuration files |

Code that updates state is modelled by classes and methods. Each method is proved equal to a
function of the old state (`Value() == Step(old(Value()), …)`); the properties are then lemmas about
these functions, over whole runs. Foreign calls become parameters: MD5 and HMAC-MD5 are arbitrary
functions with 16-octet results, text encoding is an arbitrary lawful codec, the clock is an argument
of each event, and a call that may fail is a choice carried by the event.

## Findings

Where the code does not do what one would expect, the model follows the code, and a lemma states
exactly when the expected property holds.

- Attribute extraction never ends if and only if some iteration stands at an EAP-Message header of
  length 0, as it does on the octets 79, 0 behind any packed attributes (`DivergesIff`,
  `ZeroHeaderDiverges`).
- Parsing undoes packing of an attribute list exactly when it has at most one EAP-Message and that one
  is not empty (`PackThenParseIffOneEap`).
- Fragments that are not consecutive move: the joined EAP-Message is at the place of its last fragment
  if and only if there is one run of fragments or nothing follows them (`MergedInPlaceIff`); with an
  attribute after each of two fragments it comes out last (`ScatteredFragmentsMove`).
- The Length field of a RADIUS header is not looked at, and the hashes are checked over the re-packed
  attributes. The acceptance of a response therefore means what section 3 of RFC 2865 says of the
  octets received, and that of any packet with a Message-Authenticator what section 5.14 of RFC 2869
  says, if and only if these are the octets the packer would make, save for packets that are never
  accepted (`AcceptedMeansAuthenticIff`, `VerdictIsTheStandardsIff`, `AcceptedMeansMaHoldsIff`).
- A supplicant's EAP packet reaches the server unchanged if and only if its length field is its size
  and nothing of it is dropped or rewritten; a Legacy-Nak offering several methods is cut to the first
  (`ForwardedUnchangedIff`, `NakForwarding`).
- An Integer or Enum attribute created from zero has no value (`CreatedNumberReadsBack`).
- A password that begins or ends with NUL does not come back (`DecryptGivesPasswordBack`).
- A gateway is not told that its device is gone in exactly three cases: its host fails to initialise on
  a port without directed traffic, its host cannot be built while it has no set id, or it ends while its
  port has no directed traffic (`NewStaleIff`, `RunHasStaleIff`). Each of them costs a gateway set for
  good (`LeakedSetIsLost`). No call needs to fail: two devices learned on one port are enough
  (`LossWithoutFailure`).
- A gateway whose devices all answer for it, and have directed traffic at ports of their own or no port,
  gives its set back when they end (`CanComeBack`), so only a set held up otherwise can be lost
  (`LostIsHeldUp`). Once no more devices are started every such set is lost (`EndingLostIff`), one that
  has no stale target yet included (`LossBeforeStale`); before that it may still come back, by a newcomer
  on the port (`HeldUpComesBack`). A run that learns no device on a port loses nothing
  (`PortlessRunsLoseNothing`).
- Two events put the scheduler's tables out of order, and from tables in order no others do: that failed
  initialisation (`LeakIsReachable`) and a clash of set ids, noticed only after the device was registered
  (`ClashIsReachable`); `StepKeepsOrderIff`, `RunsInOrderIff`. The host limit, the queue, the shares of
  the pool and the one gateway per group survive both (`RunsAreSafe`).
- A triggered device does not look at the queue: it gets a host ahead of a waiting device exactly when
  it is triggered from outside the queue while there is capacity (`OvertakesIff`, `OvertakingHappens`).
- A host is left between two tests if and only if recording a result raised and nothing has stopped the
  host since (`LeftBetweenTestsIff`); any host with tests can get there (`CanBeLeftBetweenTests`), and
  then no further test is started (`StoppedForGood`).
- A remark on `_base_tests`: each ping result is paired with a message and the pair is tested, so that no
  ping result fails the base tests (`PingsNeverFail` follows from this reading of the code at once).
- The primary switch's port numbers are distinct exactly for `sec_port` up to 100 (`NoClashIff`).

## Model

| member | source | states |
|---|---|---|
| `RadiusAttributes.PackConcat` | subset/dot1x/authenticator/radius_datatypes.py:206-225 | the chunking loop, with its shrinking length variable, cuts a value into pieces of 253 octets and a remainder, each behind its own header |
| `RadiusAttributes.FragmentsLength` | subset/dot1x/authenticator/radius_datatypes.py:230-233 | the fragments of a value of n octets take n + 2·ceil(n/253) octets |
| `RadiusAttributes.FullLengthIsPackedLength` | subset/dot1x/authenticator/radius_attributes.py:50-64 | for every data type the computed length is the number of octets packed, and fits one octet unless fragmented |
| `RadiusAttributes.CreatedNumberReadsBack` | subset/dot1x/authenticator/radius_datatypes.py:67-106 | a number given to Integer or Enum reads back exactly when it is between 1 and 2^32-1 |
| `RadiusAttributes.NumbersAreBigEndian` | subset/dot1x/authenticator/radius_datatypes.py:62-93 | numbers are stored with the high octet first |
| `RadiusAttributes.RegisteredTypes` | subset/dot1x/authenticator/radius_attributes.py:84-349 | the data type of every attribute type, by number |
| `RadiusAttributes.AcceptedLengths` | subset/dot1x/authenticator/radius_datatypes.py:50-59 | the lengths a value may have, by attribute type |
| `RadiusAttributes.Fit4` | subset/dot1x/authenticator/radius_datatypes.py:85-86 | four octets: those of the value, then zeros |
| `RadiusRoundTrip.ChunkAt` | subset/dot1x/authenticator/radius_datatypes.py:206-225 | piece i of a value is its octets 253·i up to 253·(i+1), or to the end |
| `RadiusList.ListLength` | subset/dot1x/authenticator/radius.py:356-360 | the length loop counts the octets the list really packs to |
| `RadiusList.LengthIsPackedLength` | subset/dot1x/authenticator/radius.py:356-366 | the sum of computed lengths equals the packed size, for every list |
| `RadiusList.PackAttributes` | subset/dot1x/authenticator/radius.py:362-366 | the packing loop gives the attributes' octets in order |
| `RadiusList.IndexOf` | subset/dot1x/authenticator/radius.py:338-354 | the position loop returns the octet position of the first attribute of a type, or none |
| `RadiusList.PositionIsPackedPrefix` | subset/dot1x/authenticator/radius.py:338-354 | that position is the size of what the attributes in front of it pack to |
| `RadiusList.FindFirst` | subset/dot1x/authenticator/radius.py:327-336 | the first attribute of a type: nothing before it has the type, and none is found only if there is none |
| `RadiusList.ReadAttribute` | subset/dot1x/authenticator/radius.py:298-313 | one header and value read at a position, with its error cases; a declared length of 0 is no error |
| `RadiusList.TrackAttribute` | subset/dot1x/authenticator/radius.py:314-325 | the index bookkeeping gives every fragment of a run the position of the run |
| `RadiusList.ExtractAttributes` | subset/dot1x/authenticator/radius.py:281-325 | the loop yields every attribute on the wire in order and the fragments with their positions, or the first error, or that it never ends |
| `RadiusTermination.StandsStillIff` | subset/dot1x/authenticator/radius.py:298-313 | an iteration leaves the position where it was if and only if it is at an EAP-Message header of length 0 |
| `RadiusTermination.LoopFollowsExtract` | subset/dot1x/authenticator/radius.py:298-325 | the loop body as written, iterated, ends as extraction says or comes to a header it never leaves |
| `RadiusTermination.DivergesIff` | subset/dot1x/authenticator/radius.py:298-306 | extraction diverges if and only if no number of iterations ends the loop, if and only if some iteration stands at such a header |
| `RadiusTermination.ZeroHeaderDiverges` | subset/dot1x/authenticator/radius.py:298-306 | such a header behind any packed attributes makes the loop never end; so do the octets 79, 0 alone |
| `RadiusTermination.HeaderOutcome` | subset/dot1x/authenticator/radius.py:298-313 | what one header and its value are read as, and each error exactly when it is raised |
| `RadiusList.JoinFragments` | subset/dot1x/authenticator/radius.py:263-270 | fragment data joined in order |
| `RadiusList.RemoveFragments` | subset/dot1x/authenticator/radius.py:271-273 | the other attributes in order |
| `RadiusList.MergeConcatAttributes` | subset/dot1x/authenticator/radius.py:249-279 | fragments replaced by one attribute at the tracked position |
| `RadiusList.ParseAttributes` | subset/dot1x/authenticator/radius.py:229-247 | extraction followed by merging, errors passed on |
| `RadiusRoundTrip.ExtractPacked` | subset/dot1x/authenticator/radius.py:281-325 | extracting packed attributes gives them back in front of whatever follows |
| `RadiusRoundTrip.TrackRun` | subset/dot1x/authenticator/radius.py:314-325 | a run of fragments behind n attributes is tracked whole, at position n |
| `RadiusRoundTrip.FragmentationIsInvisible` | subset/dot1x/authenticator/radius.py:229-325 | however a payload is split into consecutive fragments of up to 253 octets, the parsed list holds it once, whole, between the same neighbours |
| `RadiusRoundTrip.PackThenParse` | subset/dot1x/authenticator/radius.py:229-366 | parsing undoes packing for lists with at most one, non-empty, EAP-Message of any length |
| `RadiusRoundTrip.ParsedListHasOneEap` | subset/dot1x/authenticator/radius.py:249-279 | no parsed list, of any octets, has two EAP-Messages |
| `RadiusRoundTrip.PackThenParseIffOneEap` | subset/dot1x/authenticator/radius.py:229-366 | and for no other lists |
| `RadiusRoundTrip.EmptyEapIsLost` | subset/dot1x/authenticator/radius_datatypes.py:206-225 | an empty EAP-Message packs to nothing and does not come back |
| `RadiusMerge.IndexCounts` | subset/dot1x/authenticator/radius.py:314-318 | the index of the loop is the number of other attributes and of runs of fragments so far, less one |
| `RadiusMerge.MergedLandsAt` | subset/dot1x/authenticator/radius.py:249-279 | for every list with fragments, where the joined attribute lands, with the data of all of them in order |
| `RadiusMerge.MergedInPlaceIff` | subset/dot1x/authenticator/radius.py:249-279 | that is the place of the last fragment if and only if the fragments are consecutive or nothing follows them |
| `RadiusMerge.ScatteredFragmentsMove` | subset/dot1x/authenticator/radius.py:249-325 | octets with a fragment, an attribute, a fragment and an attribute parse to the two attributes and then the joined one |
| `RadiusPackets.Overwrite` | subset/dot1x/authenticator/radius.py:131-135 | the write loop patches exactly the 16 octets at a position, or as many as fit before the index error |
| `RadiusPackets.RadiusPacket.constructor` | subset/dot1x/authenticator/radius.py:97-100 | a packet with the given fields, not packed yet |
| `RadiusPackets.RadiusPacket.Pack` | subset/dot1x/authenticator/radius.py:106-112 | a new byte array with header and attributes, or a struct error that changes nothing |
| `RadiusPackets.RadiusPacket.FillDigest` | subset/dot1x/authenticator/radius.py:123-136 | the digest of the packed octets put behind the header of the first Message-Authenticator |
| `RadiusPackets.RadiusPacket.Build` | subset/dot1x/authenticator/radius.py:114-136 | packs unless there are octets already, then fills in the digest; fields unchanged; which error when |
| `RadiusPackets.RadiusPacket.ValidatePacket` | subset/dot1x/authenticator/radius.py:138-200 | the verdict of the two checks, made on a copy: this packet is not modified |
| `RadiusPackets.ParseMessage` | subset/dot1x/authenticator/radius.py:41-81 | the packet or the error, in the order the code looks for errors |
| `RadiusOutcomes.ErrorsByOctets` | subset/dot1x/authenticator/radius.py:41-81 | for every datagram, by its octets: each of the errors before the hashes if and only if it is called for |
| `RadiusOutcomes.AcceptedByOctets` | subset/dot1x/authenticator/radius.py:41-81 | what is accepted has a known code, a request that is outstanding if it is a response, and a secret; and is the packet its octets spell |
| `RadiusOutcomes.UnsolicitedIsRefused` | subset/dot1x/authenticator/radius.py:66-73 | a response to no known request is refused under every secret and hash function |
| `RadiusOutcomes.HashesDecideTheRest` | subset/dot1x/authenticator/radius.py:138-200 | otherwise the hashes decide; a request without Message-Authenticator is accepted |
| `RadiusOutcomes.PackedByOctets` | subset/dot1x/authenticator/radius.py:106-112 | the octets of a packed packet: code, identifier, length high octet first, authenticator, attributes |
| `RadiusOutcomes.BuiltWithoutDigest` | subset/dot1x/authenticator/radius.py:114-136 | without a secret or a Message-Authenticator building only packs |
| `RadiusAuthentication.LengthFieldIsSize` | subset/dot1x/authenticator/radius.py:106-112 | the Length field of a packed packet is its size |
| `RadiusAuthentication.FillingMaPatchesOctets` | subset/dot1x/authenticator/radius.py:114-136 | another digest in the attribute changes exactly the 16 octets at the computed position and nothing else |
| `RadiusAuthentication.FilledMaIsRight` | subset/dot1x/authenticator/radius.py:179-200 | zeroing the filled-in value restores what the digest was taken over |
| `RadiusAuthentication.BuiltRequestIsAccepted` | subset/dot1x/authenticator/radius.py:41-200 | a built Access-Request is accepted with the same secret, and comes back with nothing changed but the Message-Authenticator |
| `RadiusAuthentication.MaErrorOnTheWire` | subset/dot1x/authenticator/radius.py:179-200 | the check on the working copy is section 5.14 of RFC 2869 on the octets received |
| `RadiusAuthentication.ResponseAcceptedIffAuthentic` | subset/dot1x/authenticator/radius.py:138-200 | in the packer's own encoding a response is accepted if and only if section 3 of RFC 2865 holds of its octets and, with a Message-Authenticator, section 5.14 of RFC 2869 too; what is returned is the packet received |
| `RadiusAuthentication.VerdictIgnoresSplitAndLength` | subset/dot1x/authenticator/radius.py:41-81 | the outcome of parsing depends neither on the Length field nor on how the EAP-Message was split |
| `RadiusReceived.ParsedAreValid` | subset/dot1x/authenticator/radius.py:229-325 | every attribute of a parsed list, of any octets, has a length its type accepts |
| `RadiusReceived.OwnEncodingIsCanonical` | subset/dot1x/authenticator/radius.py:41-112 | a received response that packs back to its own octets is one of the packets the exact verdict above is about |
| `RadiusReceived.ForgedIsAccepted` | subset/dot1x/authenticator/radius.py:138-177 | for any other response that can be accepted there are hash functions under which it is accepted without being authentic on its octets |
| `RadiusReceived.AcceptedMeansAuthenticIff` | subset/dot1x/authenticator/radius.py:138-200 | for every received response: acceptance implies section 3 of RFC 2865 on the octets received, under all hash functions, if and only if the octets are the packer's own or the response is never accepted |
| `RadiusReceived.VerdictIsTheStandardsIff` | subset/dot1x/authenticator/radius.py:138-177 | without a Message-Authenticator acceptance is equivalent to section 3 on the octets received if and only if they are the packer's own |
| `RadiusWire.WireValue` | subset/dot1x/authenticator/radius.py:281-325 | walking headers by type and declared length comes to the first Message-Authenticator, with the value the extracted list carries |
| `RadiusWire.FirstOfParsed` | subset/dot1x/authenticator/radius.py:249-279 | merging fragments does not change which Message-Authenticator comes first |
| `RadiusWire.WirePositionOfPacked` | subset/dot1x/authenticator/radius.py:338-366 | in packed octets the walk comes to the position the packer computes |
| `RadiusReceivedMa.SameZeroedOctets` | subset/dot1x/authenticator/radius.py:179-200 | what section 5.14 of RFC 2869 hashes of the octets received is what the check hashes if and only if the octets are the packer's own |
| `RadiusReceivedMa.ForgedMaIsAccepted` | subset/dot1x/authenticator/radius.py:179-200 | for any other packet that can be accepted there are hash functions under which it is accepted and its Message-Authenticator does not hold on its octets |
| `RadiusReceivedMa.AcceptedMeansMaHoldsIff` | subset/dot1x/authenticator/radius.py:179-200 | for every received packet with a Message-Authenticator, request or response: acceptance implies section 5.14 on the octets received, under all hash functions, if and only if the octets are the packer's own or the packet is never accepted |
| `UserPassword.Encrypt` | subset/dot1x/authenticator/radius_attributes.py:102-128 | the encryption loop over padded blocks with its chained key |
| `UserPassword.Decrypt` | subset/dot1x/authenticator/radius_attributes.py:130-152 | the decryption loop, with its decoding error, and the stripping of NULs |
| `UserPassword.XorBits` | subset/dot1x/authenticator/radius_attributes.py:122 | a bit of the combination is set if and only if the bits of the operands differ |
| `UserPassword.EncryptedOctets` | subset/dot1x/authenticator/radius_attributes.py:102-128 | every cipher octet, bit by bit, as section 5.2 of RFC 2865 defines it: the password with zeros behind it, exclusive-or the digest of secret and authenticator, or of secret and the cipher block before |
| `UserPassword.ClearOctets` | subset/dot1x/authenticator/radius_attributes.py:130-152 | every clear octet of any cipher text, bit by bit, likewise |
| `UserPassword.StripIs` | subset/dot1x/authenticator/radius_attributes.py:152 | stripping takes off the NULs at both ends, all of them and nothing else |
| `UserPassword.DecryptUndoesEncrypt` | subset/dot1x/authenticator/radius_attributes.py:102-152 | the chain is undone for every MD5, secret and start key |
| `UserPassword.DecryptGivesPasswordBack` | subset/dot1x/authenticator/radius_attributes.py:102-152 | the password comes back if and only if it has no NUL at either end; the cipher text has 16·ceil(n/16) octets |
| `EapMessages.ParseTypedPacket` | subset/dot1x/authenticator/eap.py:34-76 | a packed typed message hands exactly its body to its type's parser, whatever octets follow |
| `EapMessages.EapSurvivesIff` | subset/dot1x/authenticator/eap.py:34-265 | the EAP layer gives a message back if and only if it is a request or response and a Legacy-Nak names one type |
| `EapMessages.ParseEapolPacket` | subset/dot1x/authenticator/auth_8021x.py:22-46 | the EAPOL length cuts off any padding |
| `EapMessages.FrameSurvivesIff` | subset/dot1x/authenticator/message_parser.py:150-372 | a packed frame with any padding gives message, source and destination back under the same condition |
| `EapLayout.EapOctets` | subset/dot1x/authenticator/eap.py:71-265 | the octets of every packed EAP message: code, identifier, length, type, data, by number |
| `EapLayout.PacksIff` | subset/dot1x/authenticator/eap.py:71-265 | which messages pack at all |
| `EapLayout.EapByOctets` | subset/dot1x/authenticator/eap.py:34-69 | what any octets are read as, by code and type octet |
| `EapLayout.FrameOctets` | subset/dot1x/authenticator/message_parser.py:296-372 | the octets of a start, a logoff and a frame with an EAP packet |
| `EapLayout.FrameByOctets` | subset/dot1x/authenticator/message_parser.py:150-202 | what any frame is read as, by its type octets and packet type: 1 is a start, 2 a logoff, 0 an EAP packet |
| `EapMessages.NakForwarding` | subset/dot1x/authenticator/eap.py:202-220 | a Legacy-Nak is re-packed as its first method alone |
| `EapMessages.Md5Forwarding` | subset/dot1x/authenticator/eap.py:131-151 | an MD5 body is re-packed unchanged if and only if its value length fits |
| `EapMessages.PackedLengthIsSize` | subset/dot1x/authenticator/eap.py:71-76 | the length field of a packed message is its size |
| `EapMessages.ForwardedUnchangedIff` | subset/dot1x/authenticator/message_parser.py:150-372 | packing what was parsed reproduces the octets if and only if their length field is their size and they read exactly |
| `Authenticator.AuthStateMachine.constructor` | subset/dot1x/authenticator/authenticator.py:22-40 | a machine with nothing set |
| `Authenticator.AuthStateMachine.StateTransition` | subset/dot1x/authenticator/authenticator.py:48-54 | the state changes, or the assertion fails and it does not |
| `Authenticator.AuthStateMachine.ReceivedEapolStart` | subset/dot1x/authenticator/authenticator.py:42-61 | initialisation and EAPOL start as one step |
| `Authenticator.AuthStateMachine.ReceivedEapRequest` | subset/dot1x/authenticator/authenticator.py:63-74 | an EAP message goes to the server; in another state only the identity is kept |
| `Authenticator.AuthStateMachine.ReceivedRadiusResponse` | subset/dot1x/authenticator/authenticator.py:76-93 | reject, accept and other replies |
| `Authenticator.AuthStateMachine.HandleTimer` | subset/dot1x/authenticator/authenticator.py:112-129 | retransmission, failure, or nothing |
| `Authenticator.AuthenticatorServer.ProcessTestResult` | subset/dot1x/authenticator/authenticator.py:273-286 | the result is written and the machine removed |
| `Authenticator.AuthenticatorServer.StartAuthentication` | subset/dot1x/authenticator/authenticator.py:238-251 | a new machine in the table, and the identity request sent |
| `Authenticator.AuthenticatorServer.ReceivedEapRequest` | subset/dot1x/authenticator/authenticator.py:238-257 | one step of the authenticator, including repeated starts and unknown supplicants |
| `Authenticator.AuthenticatorServer.ReceivedRadiusResponse` | subset/dot1x/authenticator/authenticator.py:258-262 | one step of the authenticator |
| `Authenticator.AuthenticatorServer.CheckTimer` | subset/dot1x/authenticator/authenticator.py:306-312 | one machine's timer check as one step |
| `AuthenticatorRuns.RunKeepsInv` | subset/dot1x/authenticator/authenticator.py:42-129 | in every reachable state machines and results have disjoint keys, every machine is armed and its retry is the last message sent for it |
| `AuthenticatorRuns.ResultsAreFinal` | subset/dot1x/authenticator/authenticator.py:238-286 | a result once written never changes |
| `AuthenticatorRuns.ResultIffCause` | subset/dot1x/authenticator/authenticator.py:76-129 | success if and only if an Access-Accept met the RADIUS state; failure if and only if a reject did or the retries ran out |
| `AuthenticatorRuns.MachineHasHistory` | subset/dot1x/authenticator/authenticator.py:56-74 | a machine has a start behind it, one in the RADIUS state an EAP message after the start |
| `AuthenticatorRuns.SuccessNeedsWholeExchange` | subset/dot1x/authenticator/authenticator.py:56-93 | success needs a start, a later EAP message, and a later accept in the RADIUS state |
| `AuthenticatorRuns.OthersDoNotMatter` | subset/dot1x/authenticator/authenticator.py:238-286 | an event of another supplicant changes neither machine nor result nor the actions sent for this one |
| `AuthenticatorRuns.RetransmitsThenFails` | subset/dot1x/authenticator/authenticator.py:112-129 | over any stretch of a run without messages of a supplicant, whatever happens to others: each of its expired checks repeats its last message until the limit, and the next one fails it; its machine, result and actions sent afterwards |
| `AuthenticatorRuns.RunsRetransmitThenFail` | subset/dot1x/authenticator/authenticator.py:306-312 | the same at any point of any run from the start |
| `AuthenticatorRuns.ProgressResetsRetries` | subset/dot1x/authenticator/authenticator.py:56-110 | any change of state resets the count, re-arms the timer and remembers the message sent |
| `AuthenticatorMessages.RunRemembers` | subset/dot1x/authenticator/authenticator.py:56-93 | over every run a machine is in the phase its events say, with the identity of the first Identity message since the start and the RADIUS state of the last reply |
| `AuthenticatorMessages.EventSends` | subset/dot1x/authenticator/authenticator.py:56-93 | what each event adds to the messages sent for a supplicant: the identity request for a first start, the EAP message to the server with identity and RADIUS state in its turn, the payload of a reply or a failure for a reject in the server's turn, else nothing |
| `AuthenticatorMessages.CheckSends` | subset/dot1x/authenticator/authenticator.py:112-129 | what a check of the timer adds: the last message again, a failure, or nothing |
| `Runner.LeastFree` | daq/runner.py:99-103 | the lowest free number from a start |
| `Runner.DaqRunner.constructor` | daq/runner.py:157 | no devices, all nine gateway sets free |
| `Runner.DaqRunner.AllocateSetId` | daq/runner.py:99-103 | the search loop returns the lowest free set id |
| `Runner.DaqRunner.CreateIfAbsent` | daq/runner.py:79-97 | registers an unknown device; fails exactly on a taken port number, after registering |
| `Runner.DaqRunner.HandleDeviceLearn` | daq/runner.py:452-461 | a device seen on a VLAN, known or not; with a session server it is made to wait for its remote trigger |
| `Runner.DaqRunner.HandleSession` | daq/runner.py:254-264 | a device announced by a session, known or not |
| `Runner.DaqRunner.DetachGateway` | daq/runner.py:1012-1022 | the device leaves its gateway, and the last one frees the set |
| `Runner.DaqRunner.TargetSetFinalize` | daq/runner.py:959-983 | the device leaves the registry, and the run may end; without a set id the call fails after that |
| `Runner.DaqRunner.TargetSetCancel` | daq/runner.py:985-1010 | off the queue, traffic undirected, gateway detached; what is skipped when undirecting raises |
| `Runner.DaqRunner.TargetSetComplete` | daq/runner.py:950-957 | cancellation, then the end of the device |
| `Runner.DaqRunner.CreateGateway` | daq/runner.py:744-794 | the one gateway of the group, or a new one on the port's own or another free set, or none |
| `Runner.DaqRunner.AttachTarget` | daq/runner.py:656-661 | device and gateway point at each other |
| `Runner.DaqRunner.LaunchHost` | daq/runner.py:659-682 | a running host, or the handling of each failure, and of a port whose traffic is directed for something else |
| `Runner.DaqRunner.JoinGateway` | daq/runner.py:643-661 | an activated gateway refuses devices without their own DHCP |
| `Runner.DaqRunner.TargetSetActivate` | daq/runner.py:632-682 | the whole activation with every failure |
| `Runner.DaqRunner.TargetSetTrigger` | daq/runner.py:592-623 | activate with capacity, else queue; what is ignored |
| `Runner.DaqRunner.TargetSetConsider` | daq/runner.py:625-630 | the head of the queue is activated when there is capacity |
| `RunnerRuns.GroupHasOneGateway` | daq/runner.py:751-758 | devices of a group share one gateway, so the assertion on existing gateways never fires |
| `RunnerRuns.CompleteKeepsSafe` | daq/runner.py:950-1022 | the end of a device, whatever it raises on the way, keeps all that is safe |
| `RunnerRuns.LaunchKeepsSafe` | daq/runner.py:659-682 | so does a launch, with every failure |
| `RunnerRuns.ActivateKeepsSafe` | daq/runner.py:632-682 | and the whole activation |
| `RunnerRuns.StepKeepsSafe` | daq/runner.py:588-682 | and every step |
| `RunnerRuns.RunsAreSafe` | daq/runner.py:588-1022 | after every run, no event excluded: hosts within the limit, the nine sets shared out between the pool and the gateways, no gateway without targets, every device with a gateway among its targets, one gateway per group, a queue of distinct waiting devices, no device that has a port and waits for a remote trigger |
| `RunnerLaws.TestsAreOffIff` | daq/runner.py:959-983 | over every run testing is off if and only if a device ended, in any way, with single shot set or the run limit reached, or one failed or found no gateway in fail mode; it never comes back on |
| `RunnerLaws.RunCountIs` | daq/runner.py:656-661 | the run count is the number of devices attached in the run |
| `RunnerRecords.QueueIs` | daq/runner.py:592-630 | the queue after every step: longer by a trigger taken without room, shorter by a turn with room, else the same |
| `RunnerRecords.RunKeepsIds` | daq/runner.py:79-109 | over every run exactly the set ids of registered devices are in use, each by one device |
| `RunnerRecords.LearnedOnPort` | daq/runner.py:444-450 | what is written down about a device learned on a port |
| `RunnerRecords.LearnedWithoutPort` | daq/runner.py:452-461 | what is written down about a device learned without one, with the lowest free set id |
| `RunnerRecords.DeviceEvents` | daq/runner.py:254-264 | which of the two a VLAN event and a session are |
| `RunnerRecords.StepKeepsGateways` | daq/base_gateway.py:126-128 | a gateway keeps name and set, and is activated by its own activation only, for good |
| `RunnerRecords.ActivationIs` | daq/runner.py:632-682 | an activation that starts: host, group, the group's gateway or a new one with the set of the port's number or the one popped, and the port's traffic directed there |
| `RunnerQueue.StepChangesQueue` | daq/runner.py:592-630 | the queue only grows at the end and shrinks at the head |
| `RunnerQueue.QueueIsFifo` | daq/runner.py:592-630 | over every run a device queued before another that waits is in front of it at every later point |
| `RunnerQueue.ActivateStarts` | daq/runner.py:632-682 | an activation gives a host if and only if a condition on the state before it holds, and changes no other host |
| `RunnerQueue.HostStartsIff` | daq/runner.py:592-630 | a device gets a host in a step if and only if it is triggered from outside the queue, or is at its head, finds capacity, and starts |
| `RunnerQueue.OvertakesIff` | daq/runner.py:614-623 | a device gets a host ahead of a waiting one if and only if it starts by such a trigger |
| `RunnerScenarios.OvertakingHappens` | daq/runner.py:614-623 | a run in which a device does so |
| `RunnerTables.CompleteKeepsOrder` | daq/runner.py:950-1022 | with the tables in order the end of a device gives everything back: gateway, set id, port |
| `RunnerTables.BuildFailureKeepsOrder` | daq/runner.py:931-948 | so does a host that cannot be built |
| `RunnerTables.LaunchKeepsOrderIff` | daq/runner.py:659-682 | a launch keeps every table in order if and only if it is not a failed initialisation of a port device |
| `RunnerTables.LeakBreaksMembership` | daq/runner.py:985-1010 | that failure leaves the gateway with a device that is no longer registered |
| `RunnerTables.ActivateKeepsOrderIff` | daq/runner.py:632-682 | the same condition for the whole activation, in terms of what can be seen before the call |
| `RunnerTables.CreateKeepsOrderIff` | daq/runner.py:79-97 | learning a device keeps the tables in order if and only if its port number is not taken |
| `RunnerTables.LearnDeviceKeepsOrder` | daq/runner.py:452-461 | learning a known device again keeps them in order |
| `RunnerTables.StepKeepsOrderIff` | daq/runner.py:588-682 | from tables in order, every step keeps targets, set ids and directed ports in order if and only if it is not one of the harmful ones |
| `RunnerTables.RunsInOrderIff` | daq/runner.py:588-1022 | the tables are in order all through a run if and only if it has no harmful event |
| `RunnerTables.LeakIsReachable` | daq/runner.py:659-682 | a fresh runner reaches the harmful failure with its first device |
| `RunnerTables.ClashIsReachable` | daq/runner.py:79-97 | and the clash with its second |
| `RunnerLeaks.StepKeepsStale` | daq/runner.py:588-1022 | no step takes a target off a gateway that no registered device answers for |
| `RunnerLeaks.StaleForEver` | daq/runner.py:588-1022 | such a gateway and its set stay taken over every continuation of a run |
| `RunnerLeaks.LaunchStaleIff` | daq/runner.py:659-682 | which failures of a launch leave the gateway with its departed device, if and only if |
| `RunnerLeaks.FinishLeavesIff` | daq/runner.py:950-1022 | the end of a running device does so if and only if its port has no directed traffic |
| `RunnerLeaks.NewStaleIff` | daq/runner.py:588-1022 | in every safe state a step leaves a new stale target exactly in the three cases |
| `RunnerLosses.RunHasStaleIff` | daq/runner.py:588-1022 | after a run a gateway holds a stale target of a name if and only if some event of the run left one |
| `RunnerLosses.LeakedSetIsLost` | daq/runner.py:985-1022 | every such event of every run costs one of the nine sets for good: it is in the pool after no continuation |
| `RunnerLosses.CanComeBack` | daq/runner.py:950-1022 | a gateway whose devices can all leave cleanly gives its set back when they end, and nothing else needs to happen |
| `RunnerLosses.LostIsHeldUp` | daq/runner.py:950-1022 | after any run a set that is free or has such a gateway is not lost |
| `RunnerLosses.FinishKeepsHeld` | daq/runner.py:950-1022 | the end of any device leaves a gateway that is not clean as it is: not clean |
| `RunnerLosses.EndingLostIff` | daq/runner.py:588-1022 | once tests are off and nobody waits, a set is lost for good if and only if its gateway has a target that is stale, has no directed traffic at its port, or shares its port with another |
| `RunnerLosses.PortlessRunsLoseNothing` | daq/runner.py:387-392 | a run that learns no device on a port, as every run of a runner that learns on VLANs, leaves no stale target and loses no set |
| `RunnerScenarios.LossWithoutFailure` | daq/runner.py:659-682 | a run with two devices on one port and no failing call that leads to such a loss |
| `RunnerScenarios.LossBeforeStale` | daq/runner.py:950-985 | in the same run, when a failure ends the tests, the set is lost before any gateway has a stale target |
| `RunnerScenarios.HeldUpComesBack` | daq/runner.py:659-682 | when the tests go on, it is held up and not lost: a third device on the port brings it back |
| `HostLifecycle.ConnectedHost.constructor` | daq/host.py:91-144 | ready, with all enabled tests remaining |
| `HostLifecycle.ConnectedHost.StateTransition` | daq/host.py:308-314 | the transition with its two assertions |
| `HostLifecycle.ConnectedHost.RunNextTest` | daq/host.py:652-728 | the next test or the end, any exception leading to the error state |
| `HostLifecycle.ConnectedHost.ContinueFromMonitor` | daq/host.py:630-633 | from monitoring to the next test |
| `HostLifecycle.ConnectedHost.StartBase` | daq/host.py:573-650 | base tests, then monitoring or the first test |
| `HostLifecycle.ConnectedHost.EndOfTest` | daq/host.py:730-813 | the end of a test: on to the next, or an exception that leaves the host as it was or between tests |
| `HostLifecycle.ConnectedHost.Handle` | daq/host.py:296-537 | every event of a host as one step |
| `HostLifecycle.RunKeepsInv` | daq/host.py:308-748 | over every run the states follow the graph and the test lists stay in order |
| `HostLifecycle.ErrorsAndEnd` | daq/host.py:308-314 | after an error only errors or the termination; nothing after the termination |
| `HostLifecycle.EventGoesThrough` | daq/host.py:296-813 | the table of the life of a host: the states every event takes it through from every state |
| `HostLifecycle.AddressIsSet` | daq/host.py:519-537 | the host has an address exactly once a ready trigger met it waiting |
| `HostLifecycle.RunTestsInOrder` | daq/host.py:652-748 | started tests followed by the remaining ones are the enabled ones; the test state is entered at most once per test; a run that is done entered it once for each, in order |
| `HostLifecycle.LeftBetweenTestsIff` | daq/host.py:730-748 | after a run a host is between tests if and only if recording the result of some test raised and no event since then stopped the host |
| `HostLifecycle.CanBeLeftBetweenTests` | daq/host.py:730-748 | a run that gets any host with tests there |
| `HostLifecycle.StoppedForGood` | daq/host.py:730-748 | a host left between tests or in an error starts no further test and never gets to the end of them |
| `GatewayPorts.FreePortIffFewerThanFour` | daq/base_gateway.py:134-142 | a test port is free if and only if fewer than four are held |
| `GatewayPorts.PortsOfSetsAreDisjoint` | daq/base_gateway.py:149-150 | port sets do not share ports |
| `GatewayPorts.PortNumbers` | daq/topology.py:198-200 | test ports, switch ports and mirror ports by number |
| `GatewayPorts.InterfaceNumbers` | daq/topology.py:277-287 | what stands at which port of the primary switch, by number |
| `GatewayPorts.BaseGateway.constructor` | daq/base_gateway.py:32-50 | no test ports held |
| `GatewayPorts.BaseGateway.AllocateTestPort` | daq/base_gateway.py:134-142 | the lowest free test port, if and only if fewer than four are held |
| `GatewayPorts.BaseGateway.ReleaseTestPort` | daq/base_gateway.py:144-147 | the port is free again; releasing a free one fails |
| `GatewayPorts.NoClashIff` | daq/topology.py:277-287 | all interface numbers of the primary switch are distinct if and only if `sec_port` is at most 100 |
| `GatewayPorts.MakePriInterfaces` | daq/topology.py:277-287 | up to that limit the table built by the loops holds every interface at its port, and never anything else |
| `MirrorAcl.GeneratePortTargetAcls` | daq/topology.py:378-390 | mirror tuples grouped by set in order, and a rule per target |
| `MirrorAcl.GenerateSourceAcls` | daq/topology.py:398-406 | the rules of one source: broadcast, each other target, anything else |
| `MirrorAcl.GenerateMirrorAcls` | daq/topology.py:392-410 | the rules of all sets in order, and each set's broadcast rule |
| `MirrorMeaning.GenerateMainAcls` | daq/topology.py:454-485 | the complete lists |
| `MirrorMeaning.TargetFramesAreMirrored` | daq/topology.py:378-474 | under first match, an untagged frame of a target goes to all mirrors of its set, to the mirrors of sender and receiver, or to the sender's own, and to nothing else |
| `MirrorMeaning.BroadcastPortsAreTheSetsMirrors` | daq/topology.py:378-410 | the broadcast ports are the mirrors of the set's targets, all of them and no others |
| `MirrorMeaning.OtherFramesPassThrough` | daq/topology.py:392-474 | untagged frames from elsewhere meet no mirror rule |
| `MirrorMeaning.TaggedFramesAreReflected` | daq/topology.py:435-474 | tagged frames meet no mirror rule: 802.1X goes to the ports of its tag, anything else passes on |
| `MirrorMeaning.LastRuleAllows` | daq/topology.py:454-474 | the last rule lets any frame pass; the numbers the rules use |
| `MirrorMeaning.GatewayFramesAreMirrored` | daq/topology.py:368-485 | which rule every frame from a gateway meets: own address, target of the set, broadcast, 802.1X, anything else |
| `EventBuffer.BufferIsLinesAndTail` | daq/faucet_event_client.py:147-165 | a buffer is its complete lines followed by a tail without newline |
| `EventBuffer.JoinedBuffer` | daq/faucet_event_client.py:131-145 | and such lines and tail are read back from the text they make |
| `EventBuffer.AppendIsEnqueue` | daq/faucet_event_client.py:135-145 | appending puts an event behind the complete lines, never into the tail |
| `EventBuffer.PrependIsPush` | daq/faucet_event_client.py:131-133 | prepending puts it in front of them |
| `EventBuffer.ReceiveExtendsTail` | daq/faucet_event_client.py:70-83 | receiving touches the tail only |
| `EventBuffer.ReadingIgnoresChunks` | daq/faucet_event_client.py:70-83 | the lines read do not depend on the chunks they came in |
| `EventBuffer.RunRefines` | daq/faucet_event_client.py:70-165 | any run of operations on the text gives what the same run on a queue of lines and a tail gives |
| `EventBuffer.EventStream.constructor` | daq/faucet_event_client.py:24-34 | an empty buffer |
| `EventBuffer.EventStream.AppendEvent` | daq/faucet_event_client.py:135-145 | the three cases of the code are the queue operation |
| `EventBuffer.EventStream.PrependEvent` | daq/faucet_event_client.py:131-133 | likewise |
| `EventBuffer.EventStream.HasEvent` | daq/faucet_event_client.py:70-83 | receives until a line is complete; loses nothing; disconnection |
| `EventBuffer.EventStream.NextLine` | daq/faucet_event_client.py:147-156 | takes the first complete line and leaves the rest |
| `EventBuffer.EventStream.ReadAll` | daq/faucet_event_client.py:147-165 | a reading loop gives exactly the lines of all that was sent |
| `Debounce.Debouncer.constructor` | daq/faucet_event_client.py:24-34 | no timers, nothing delivered |
| `Debounce.Debouncer.HandleDebounce` | daq/faucet_event_client.py:127-129 | the state is delivered |
| `Debounce.Debouncer.DebouncePortEvent` | daq/faucet_event_client.py:110-125 | cancels the port's last timer; delivers an up, starts a timer for a down |
| `Debounce.Debouncer.TimerExpires` | daq/faucet_event_client.py:121-129 | a live timer that is due delivers its down |
| `Debounce.OneTimerPerPort` | daq/faucet_event_client.py:110-125 | at most one live timer per port, over all interleavings |
| `Debounce.SettlesToLastRaw` | daq/faucet_event_client.py:110-129 | without a pending timer the last delivered state is the last raw one; with one, the last raw state is down |
| `Debounce.LiveTimerWasQuiet` | daq/faucet_event_client.py:110-125 | nothing was heard from a port since its live timer was started |
| `Debounce.DownOnlyAfterQuietPeriod` | daq/faucet_event_client.py:110-129 | every delivered down was reported a whole period earlier, with silence in between |
| `Debounce.EventDelivers` | daq/faucet_event_client.py:110-129 | what each event puts on the output queue |
| `Debounce.UpsAreRawUps` | daq/faucet_event_client.py:110-129 | over every run the ups delivered are the ups reported: each once, in order, and no others |
| `Debounce.RawArms` | daq/faucet_event_client.py:110-125 | a report leaves its port one timer, due exactly a period later, or none, and other ports theirs |
| `Debounce.ExpiresOnce` | daq/faucet_event_client.py:121-129 | a due timer delivers one down and is gone |
| `Configurator.DeepMergeDict` | daq/configurator.py:109-115 | the recursive loop merges key by key, in whatever order |
| `Configurator.MergeByPaths` | daq/configurator.py:109-115 | right bias by paths: which scalars a merge holds, if and only if |
| `Configurator.MergeReaches` | daq/configurator.py:109-115 | which paths a merge has, if and only if |
| `Configurator.MergeIsIdempotent` | daq/configurator.py:109-115 | merging the same dictionary again changes nothing |
| `Configurator.Config.MergeConfig` | daq/configurator.py:73-88 | terminates on every file system; after an error the base is as it was |
| `Configurator.MergeOutcome` | daq/configurator.py:73-88 | a circular include is reported if and only if the chain revisits a file, an unreadable file if and only if the chain reaches one, and otherwise the chain is merged from the innermost file outwards |

## Left out

- Sockets, packet capture, containers, gRPC, cloud storage, report files and logging: foreign calls, which are parameters or not modelled.
- Threads: every handler is one atomic step, so a timer that fires while it is being cancelled, or a table that changes while it is iterated, is not modelled.
- MD5 and HMAC-MD5: arbitrary functions with 16-octet results.
- UTF-8: an abstract codec in `EapMessages`; passwords in `UserPassword` are ASCII.
- RADIUS code lookup by class and the assembly of request attributes in `radius_pack` and `radius_mab_pack`.
- Attribute values as text or numbers: attributes carry their octets; typed reading is modelled for numbers only.
- RadiusAuthentication.ResponseAcceptedIffAuthentic: is about the packer's own encoding; for all other octets RadiusReceived.AcceptedMeansAuthenticIff and RadiusReceivedMa.AcceptedMeansMaHoldsIff say what acceptance means.
- RadiusReceived.AcceptedMeansAuthenticIff: is about the Response Authenticator; RadiusReceivedMa.AcceptedMeansMaHoldsIff is about the Message-Authenticator.
- RadiusAuthentication.BuiltRequestIsAccepted: is about a non-empty secret, since `build` without one leaves the zeroed value and the parser refuses an empty secret.
- Authenticator.AuthenticatorServer.ProcessTestResult: the shutdown of both sockets after the first result is not modelled, so runs may go on with more messages than the program would read.
- Authenticator.AuthenticatorServer.CheckTimer: one machine per step; the heartbeat's own idle timeout, which ends the whole authentication when nobody ever starts, is not modelled.
- The native gateway, which uses a set without taking it from the pool, and result linger, which keeps gateways after a device ended.
- The event drain of single-shot runs, inside the finalisation of a device.
- Counting of ready devices in a group, DHCP notifications and gateway termination by timeout.
- Devices and gateways are values in tables of the runner object, so two references to one device are not modelled as aliases; nested dictionaries of a configuration likewise.
- RunnerRuns.StepKeepsSafe: a device's group and the set popped are chosen anew by each event, and a session is not followed by its trigger in the same step; runs of the model include those of the code.
- Runner.DaqRunner.CreateGateway: the set popped from the pool is whatever the event says; runs let it be any free one.
- MirrorAcl.GeneratePortTargetAcls: a target outside the numbered port sets, on which the code raises, is excluded.
- MirrorMeaning.GenerateMainAcls: the DHCP reflector rules are an arbitrary list behind the mirror rules, the 802.1X rules an arbitrary list in front of them; the lists of the secondary switch and of the local port are not built.
- Port access lists, device specifications and templates of the topology.
- HostLifecycle.ConnectedHost.Handle: the return of a test port when a host is terminated, timeouts of test modules, results and reports are not modelled.
- EventBuffer.EventStream.HasEvent: blocking receipt, and the decoding of octets to text, are not modelled.
- EventBuffer.EventStream.ReadAll: reads lines only; the debounced queue and the filtering of events in the same loop are not modelled.
- Decoding and dispatching of events in `next_event`, and the suppression of repeated port states.
- Reading of YAML files, environment variables in them, and the resolution of relative include paths: a file system is a map from resolved paths to contents.
- Switch scraping, the TLS, BACnet and NTP test programs, and web pages.
