# Concordia integrity layer: a verified model

Concordia is a protocol by which software agents negotiate, sign what they agreed, and later
prove what they did. This project models the layer that everything else rests on, and proves
what that layer promises.

- **Canonical bytes** (`PythonValues`, `Unicode`, `Numbers`, `NumberTexts`, `RealValues`,
  `NumberShape`, `Signing`, `CanonicalParser`, `CanonicalOrder`).
  Whatever is signed or hashed first becomes canonical JSON (RFC 8785): members sorted by UTF-16
  code units, numbers laid out as ECMAScript prints them. An independent parser inverts the
  printer, so bytes identify values; names stand in order, escapes are the shortest, and a number has
  no other text of its shape. Numbers are identified by the decimal they print, which is
  one for equal reals: the integer 1152921504606847000 and the float that `repr` writes
  1.152921504606847e+18 print the same bytes. An int and a float of one decimal print
  differently from 10 to the 21 on.
- **Strict reading** (`Nesting`, `Base64Url`). The byte scanner that bounds nesting before
  parsing agrees with the depth computed after parsing; the strict signature decoder accepts
  exactly the encodings.
- **Commitments** (`Hashing`, `Merkle`, `ReceiptBundle`, `CompetenceProof`, `CompetenceIssue`,
  `NamelessParties`, `BundleVerification`, `BundleClaims`, `SummaryMeaning`, `BundleMeaning`,
  `SignedRecords`).
  Merkle trees with the odd node hashed with itself, inclusion proofs, outcome binding, bundle
  summaries, the five-condition gate for a competence proof's aggregate, and bundle verification.
- **Signatures that do not cover signatures** (`Crypto`, `Cosign`). Co-signature payloads and
  issuance countersignatures. `SignatureMeaning` states every signature check, of messages, party
  entries, countersignatures, bundles and proofs, down to the signature scheme.
- **Hash-chained state machines** (`Message`, `SetBinding`, `Negotiation`, `ConcessionMeaning`,
  `Session`, `SessionRuns`, `SessionOutcomes`, `BehaviorMeaning`, `Envelopes`, `EnvelopeMeaning`,
  `BrokenOffers`, `ChainSession`). The reasons for which a session refuses a message are spelled
  out in `SessionRuns.RefusedForCause`.
- **Closure predicates** (`Predicates`, `PredicateMeaning`, `PredicateLaws`, `PredicateOrder`,
  `Bilateral`, `BilateralMeaning`). Tests mean what they say in plain relations of numbers, texts and instants.
- **Relay and registry** (`Relay`, `RelayMail`, `RelayRuns`, `RelayMeaning`, `RelayContents`,
  `RelayDrops`, `RelayOverflow`, `Matching`, `MatchingMeaning`, `Registry`).
- **Where ints leave the floats** (`FloatRange`, `RangedSums`). Python's ints have any size, and
  turning one into a float raises OverflowError from 2 to the 1024 less 2 to the 970 on. The
  modelled places that do so are modelled with their exception.
- `Wrappers`, `Order`, `Sequences`, `AttestationVersion` are shared support.

Conventions. A Python exception is an empty `Option`, an `Error` value or a named outcome, never
a precondition. SHA-256 is any function with 64-character digests and is nowhere assumed to be
injective: a theorem concludes its claim *or returns two different texts, both actually hashed,
with one digest*. A signature scheme is any scheme whose own signatures verify; nothing is
assumed about forgery. Clock readings and generated identifiers are parameters. Bundles and
competence proofs are verified for any bytes under their signatures; `SignedRecords` gives the
dicts whose canonical bytes these are. Each imperative
method is proved equal to a function on values, and the theorems are about that function and
about every run of it. The modules named `...Meaning` say what those functions come to, down to the
members of the dicts by their literal names.

Where the code and its own documentation disagree, the model follows the code:

- `_format_number_ecmascript` documents the bytes of ECMAScript for all finite numbers; ints take
  `str`, so from 10 to the 21 on an int does not print as the float of the same decimal does
  (`NumberTexts.LargePowerPrintsTwice`, with the exact condition in `NumberTexts.SameTextIff`).
  That condition compares ints and floats of one decimal. An int that no float shows, such as 2 to
  the 53 plus 1, prints all its digits, where ECMAScript would round it first.
- `_compute_concession` documents a value in [0, 1]; the formula is not bounded by one
  (`Negotiation.ConcessionExceedsOne`). `Negotiation.ConcessionWithinOneIff` says when it is, and
  `SmallMovesWithinOne` and `LargeMovesExceedOne` give conditions on single terms.
- A failed `apply_message` can leave the message in the transcript, when its body is malformed
  (`BrokenOffers.MalformedOfferStays`) and when its numbers are too far apart for a float, as from 1
  to 10 to the 400 (`BrokenOffers.HugeOfferStays`); `SessionRuns.FailedCallChangesNothingIff` gives
  the exact shapes.
- An outcome is documented as bound only when every listed party countersigned it; entries without
  an id are passed over, so a list of one named and one nameless party is bound by the first alone
  (`NamelessParties.HalfNamedIsBound`). `NamelessParties.EveryEntryIff` says when the promise holds.
- A quantity or field that is an int no float holds makes the closure evaluators refuse a malformed
  predicate rather than a non-numeric quantity. A running total that becomes infinite on the way is
  a mismatch even if later terms would bring it back, so the order of commitments can matter
  (`RangedSums.UnsettledExample`, `Bilateral.QuantityOrderFreeIff`). Amounts of one sign are never
  affected (`RangedSums.OneSignSettled`).
- `_validate_location` is documented to keep entries out that make later posts crash; a radius of
  10 to the 400 passes it and does just that (`Registry.HugeRadiusPoisons`).
- A relay message whose lifetime no float holds makes every poll of its recipient raise, after
  messages before it have been marked and counted as delivered that are never handed over
  (`RelayOverflow.HugeLifetimeBreaksPolls`, `RelayOverflow.RaisingPollRepeats`). The statements about
  all runs of the relay are about lifetimes that floats hold.
- `verify_bundle` documents that summary statistics match the attestations. The comparison skips the
  fulfillment rate and both extreme timestamps (`BundleClaims.WrongRateAccepted`), and a bundle
  without attestations is not compared at all (`BundleClaims.EmptyBundleClaimsAnything`).
  `BundleClaims.ValidSummaryIsTrueIff` says when the summary of a valid bundle is true, and
  `BundleClaims.LegacyBundleExists` that every agent has a bundle of the kind that the first speaks of.
- The typed comparison of the closure language runs lazily, so a clash of types behind a failed
  comparison goes unseen (`PredicateOrder.OrderCanMatter`, `PredicateOrder.ComparisonOrderFreeIff`).
- Compatible terms can score zero and go unmatched (`Matching.PoorNeverMatchesPoor`,
  `Matching.EmptyTermsNeverMatch`); `Matching.ZeroScoreIff` says exactly which.
- A relay message that meets a full mailbox stays in the transcript though the sender is told
  nothing was sent (`RelayDrops.FullMailboxIsReached`, `RelayDrops.KeptAndDeniedIff`); it is in no
  mailbox from then on (`RelayDrops.KeptAndDeniedIsDropped`).

`dafny verify dfyconfig.toml` checks the whole project.

## Model

| member | source | states |
|---|---|---|
| Unicode.Utf16BeOrderIsCodeUnitOrder | concordia/signing.py:285-288 | Comparing UTF-16BE bytes, which is the sort key in use, orders property names by UTF-16 code units as RFC 8785 section 3.2.3 requires |
| CanonicalOrder.PrintedNamesInOrder | concordia/signing.py:285-344 | On the bytes of any dict: at every depth the names stand in the order of their UTF-16 units, first difference deciding, and a name before every longer name that it begins |
| CanonicalOrder.UnitsAreUtf16 | concordia/signing.py:285-288 | The units are those of UTF-16: the character itself, or the high and low surrogate that decode to it |
| Unicode.CodeUnitOrderIsNotCodePointOrder | concordia/signing.py:285-288 | Plain string comparison would not do: a name outside the basic plane sorts before U+FFFF |
| Unicode.Utf8RoundTrip | concordia/signing.py:344 | UTF-8 decoding inverts encoding, so canonical text and canonical bytes identify each other |
| CanonicalOrder.EscapeIsShortest | concordia/signing.py:317 | Each character of a string is written in the one shortest way that a reader takes for it |
| Numbers.NumberRoundTrip | concordia/signing.py:180-262 | For every int and every repr-shaped float, reading the printed number back gives the decimal it stands for, and printing fails on exactly NaN and the infinities |
| Numbers.SignificandIsEcma | concordia/signing.py:205-240 | The digits and point taken out of `repr` are the unique tight triple that section 6.1.6.1.20 of ECMA-262 asks for |
| Numbers.ExponentFormByMagnitude | concordia/signing.py:241-262 | Exponent notation is used exactly when the decimal point lies outside -5..21, as ECMAScript does |
| NumberShape.PrintedIsOnlyTightText | concordia/signing.py:180-262 | The printed number is the only text without idle zeros, and with a sign on its exponent, that has the number's value, sign and notation |
| Numbers.EqualFloatsPrintAlike | concordia/signing.py:180-262 | Floats that denote one decimal print one text, however `repr` wrote them |
| NumberTexts.SameTextIff | concordia/signing.py:191-262 | Exactly which numbers print alike: those of one decimal, unless one is an int, the other a float, and the decimal point lies beyond 21 digits |
| NumberTexts.LargePowerPrintsTwice | concordia/signing.py:180-192 | Every power of ten from 10 to the 21 on has two texts, one as an int and one as a float, so not every finite number prints as ECMAScript would |
| RealValues.ValueIsReading | concordia/signing.py:180-262 | The decimal of a number is the real that its text denotes: for an int the int itself, for a float the value of its `repr` |
| RealValues.OneDecimalIffEqual | concordia/signing.py:180-262 | Two numbers have one decimal if and only if they are equal as reals, so identifying numbers by decimal identifies equal numbers and no others |
| Signing.PrinterDomain | concordia/signing.py:165-177 | The printer raises on exactly the values that have no canonical form: non-finite numbers, negative zero, lone surrogates, foreign objects |
| Signing.SameValuePrintsAlike | concordia/signing.py:291-330 | Output does not depend on member insertion order or on list or tuple, nor on how a decimal is held, except that an int and a float are kept apart from 10 to the 21 on |
| CanonicalParser.ParserInvertsPrinter | concordia/signing.py:291-344 | An independent JSON parser reads every canonical document back to the value it was printed from |
| CanonicalParser.SameBytesIffSameValue | concordia/signing.py:333-344 | Two accepted values have the same canonical bytes if and only if they are equal up to order and list or tuple, numbers being equal as decimals and no int standing for a float from 10 to the 21 on |
| Nesting.PrecheckJsonNesting | concordia/attestation.py:428-452 | The byte loop with string and escape tracking accepts exactly the inputs whose deepest bracket level is within the limit |
| Nesting.JsonDepth | concordia/attestation.py:455-468 | The explicit-stack walk computes the recursive depth of the value |
| Nesting.ScannerAgreesWithDepth | concordia/attestation.py:428-468 | On the canonical bytes of any value the scanner's peak is the depth of the parsed value, so both checks accept the same documents |
| Base64Url.StrictDecoderInvertsEncoder | concordia/attestation.py:400-416 | A signature text is accepted as some octets if and only if they are 64 octets and the text is their padded base64url encoding, so no two accepted texts decode alike |
| Base64Url.PlainDecoderAcceptsUnusedBits | concordia/attestation.py:406-409 | Why the unused bits are checked first: the plain decoder maps two different texts to the same octets |
| Base64Url.DecodeInvertsEncode | concordia/attestation.py:406-416 | Decoding inverts encoding for octets of any number |
| Base64Url.RestoreAfterStrip | concordia/cosign.py:140-175 | Stripping the padding of an encoding and adding it by length gives the encoding back, for any octets |
| Hashing.CollisionIsOfBytes | concordia/competence_proof.py:115-132 | A collision of texts is one of the byte strings that SHA-256 sees |
| Merkle.HashPairs | concordia/competence_proof.py:123-132 | One pass over a layer yields the next layer, an odd last node paired with itself |
| Merkle.BuildMerkleTree | concordia/competence_proof.py:93-135 | The loop returns the root and all layers of the recursive tree over the sorted ids |
| Merkle.GenerateMerkleProof | concordia/competence_proof.py:138-192 | The proof of a committed id is its first sorted position and the siblings on its path; other ids are refused |
| Merkle.VerifyMerkleProof | concordia/competence_proof.py:195-228 | The loop accepts exactly when climbing from the leaf by the given siblings ends in the root |
| Merkle.GeneratedProofAccepted | concordia/competence_proof.py:138-228 | For every list length and position, the generated proof is accepted |
| Merkle.AcceptedProofShowsMembership | concordia/competence_proof.py:195-228 | An accepted index and sibling list of any length shows that the short id is a leaf, or two hashed texts collide |
| Merkle.InnerNodeTextAccepted | concordia/competence_proof.py:115-129 | Why ids must be short: the 128-character text of an inner pair is accepted as if it were an id |
| Merkle.RootCommitsToIds | concordia/competence_proof.py:93-135 | Duplicate-free lists of short ids with one root are permutations of each other, whatever their sizes and odd nodes, or a collision is returned |
| Merkle.RepeatedLastIdKeepsRoot | concordia/competence_proof.py:126-130 | Why duplicates must be excluded: over any odd number of ids, three or more, repeating the last sorted id gives a longer list with the same root |
| Cosign.PayloadIgnoresSignatures | concordia/attestation.py:1133-1144 | Adding, replacing or removing a signature at any depth leaves the countersigned bytes unchanged |
| Cosign.PayloadIgnoresMap | concordia/attestation.py:1141-1144 | So does replacing the countersignature map, hence parties may sign in any order |
| Cosign.PayloadBindsTheRest | concordia/cosign.py:85-113 | Everything else is covered: equal payloads mean equal attestations once signatures are gone, and conversely |
| SignatureMeaning.PayloadFixesEveryField | concordia/attestation.py:1133-1144 | Countersigned bytes fix every field of an attestation but `signature` and `countersignatures`: both have it or neither, with one value up to signatures inside |
| Cosign.IssuedCountersignaturesVerify | concordia/attestation.py:1776-1780 | Every countersignature produced at issuance verifies on the finished attestation and after any later signature edit |
| Cosign.PlacementDomain | concordia/cosign.py:178-219 | A co-signature is placed exactly when it is not empty and one party entry, and no second one, names the counterparty |
| SignatureMeaning.PlacementIs | concordia/cosign.py:178-219 | The signature goes into the one entry that names the counterparty; no other entry and no other member changes |
| Cosign.PlacedSignatureVerifies | concordia/cosign.py:163-219 | The unpadded signature that `cosign_receipt` makes can be placed whenever one entry names the counterparty; with its padding restored it verifies over the bytes of the receipt that now carries it, and without padding the strict decoder refuses it |
| Message.ValidateChain | concordia/message.py:87-104 | The loop returns true exactly when every message carries the hash of its predecessor and the first one the genesis hash |
| Message.ChainAppend | concordia/message.py:87-104 | Appending keeps a chain valid if and only if the new message carries the current tip |
| Message.HeadAndCountPinTranscript | concordia/message.py:28-104 | Two valid chains with one head hash and one length are equal message by message, or a collision is returned |
| SetBinding.ReceiptPinsTranscript | concordia/attestation.py:1081-1105 | Transcripts that bind to receipts with one head and count are one transcript, given that both chains are valid, or a collision is returned |
| BundleMeaning.SetBindingIff | concordia/attestation.py:1040-1105 | The four states of set-binding from the receipt's own fields: too old, present without a transcript, bound to the last message's hash and the number of messages, and otherwise an error |
| Negotiation.ConcessionNonNegative | concordia/session.py:387-406 | A concession is never negative, for terms of any shape |
| ConcessionMeaning.ConcessionIsMean | concordia/session.py:392-406 | A concession is the mean of the relative movements of the terms compared, and zero when there are none |
| ConcessionMeaning.ComparedIff | concordia/session.py:395-405 | A term is compared exactly when both offers give it a number or bool, the earlier one not zero |
| Negotiation.ConcessionWithinOneIff | concordia/session.py:392-406 | For any two offers that can be compared, the concession is at most one exactly when the relative movements of the compared terms sum to at most their number |
| Negotiation.SmallMovesWithinOne | concordia/session.py:392-406 | The bound of one holds when no compared term moves by more than its previous size |
| Negotiation.LargeMovesExceedOne | concordia/session.py:392-406 | It fails when terms are compared and all of them move by more than their previous size |
| Negotiation.ConcessionRaisesIff | concordia/session.py:395-406 | The comparison raises exactly on these shapes: earlier terms that are no object, later terms without a membership test, a term found in both where a side is no object, or values of which an int is too large for the float arithmetic between them |
| ConcessionMeaning.IntsOverflowIff | concordia/session.py:404-405 | Comparing ints overflows exactly when the change is the float limit times the earlier value, or more |
| ConcessionMeaning.MixedOverflowIff | concordia/session.py:404-405 | Beside a float, an int overflows exactly when no float holds it |
| ConcessionMeaning.ContainsIff | concordia/session.py:396-397 | What can be asked for a term, and the answer: a dict's name, a list's element, a text within a text |
| ConcessionMeaning.FalsyIff | concordia/session.py:360-372 | What Python takes for false: nothing, false, every zero and everything empty |
| Negotiation.ConcessionExceedsOne | concordia/session.py:392-406 | The documented bound of one fails: moving from 1 to 3 concedes 2 |
| Session.Session.Apply | concordia/session.py:172-301 | `apply_message` on the object does what the step function says, for every outcome |
| SessionOutcomes.AdmittedIff | concordia/session.py:197-276 | A message is admitted exactly when the key resolved for its sender verifies it, it names no other session or predecessor, the state lets its type through, and an offer finds a round left |
| SessionOutcomes.StateAdmitsIff | concordia/session.py:58-79 | Which types each state lets through, by name |
| SessionOutcomes.AcceptanceAgrees | concordia/session.py:278-301 | An admitted acceptance or commitment ends in AGREED, stamps the time and fires the callback that has not fired |
| SessionOutcomes.JoiningRegisters | concordia/session.py:151-170 | A registered party has a record from then on, and whoever had one keeps it |
| Session.Session.TrackBehavior | concordia/session.py:348-384 | Behavior tracking, including how far it gets before it raises on a malformed offer |
| BehaviorMeaning.RecordIs | concordia/session.py:348-383 | Which counters and flags of the sender's record a message raises, by the type it names; a concession counts exactly when the offered terms give way against the last ones |
| BehaviorMeaning.TrackedIs | concordia/session.py:348-373 | An offer uses up a round and, unless empty, becomes the agent's last offer; nobody else's record changes |
| Session.Session.ExpireNow | concordia/session.py:315-324 | Expiry from PROPOSED or ACTIVE only, firing the terminal callback; otherwise nothing changes |
| Session.Session.Sleep | concordia/session.py:326-333 | Dormancy from REJECTED or EXPIRED only; otherwise nothing changes |
| SessionRuns.RunKeepsInv | concordia/session.py:172-384 | Over every run: transcript messages are verified, bound to the session and linked; `round_count` equals the offers and counters and stays within `max_rounds`; `offers_made` is right for every agent and sums to `round_count`; running means match the transcript; the callback fires at most once; an agreement is the last message's work |
| SessionRuns.ChainValidIffAllCarry | concordia/session.py:243-248 | The transcript passes `validate_chain` if and only if no message left `prev_hash` out |
| SessionRuns.AgreedIsAbsorbing | concordia/session.py:58-79 | No sequence of calls leaves AGREED, extends its transcript or fires the callback again |
| SessionOutcomes.OutcomeIff | concordia/session.py:58-333 | Over every run: AGREED, REJECTED, EXPIRED or DORMANT exactly when the last call that did anything was an acceptance or commitment; a decline, rejection or withdrawal; an expiry; a falling asleep; and the time of the end is the time of that call |
| SessionRuns.FailedCallChangesNothingIff | concordia/session.py:278-291 | A failed call leaves the session as it was exactly unless an admitted message has a malformed body: no dict, or an offer that cannot be compared with the last one for its shape or for the size of its ints |
| BrokenOffers.MalformedOfferStays | concordia/session.py:278-291 | In an accepted session a properly signed offer whose body is null raises, and stays in the transcript and in the round count |
| BrokenOffers.HugeOfferStays | concordia/session.py:278-291 | After an offer of 1, a properly signed offer of any int beyond the floats raises in the quotient, and stays in the transcript and in the round count |
| SessionRuns.WellShapedCallsAreAtomic | concordia/session.py:278-291 | With terms that are objects of objects, and ints below half the range of the floats, every call is applied or changes nothing |
| SessionRuns.RunningMeanIsBatchMean | concordia/session.py:360-372 | `concession_magnitude` times `concessions` is the sum of the positive concessions between an agent's successive non-empty offers, and is positive once there is one |
| EnvelopeMeaning.BuiltMessageSays | concordia/message.py:62-84 | A built message says every argument under its name, sender and recipients with agent and principal included, and has no optional member that was not given |
| Envelopes.BuildEnvelope | concordia/message.py:42-86 | Adding the optional members one by one and signing last gives the message that the theorems below speak of, or no message where it has no canonical form |
| Envelopes.BuiltMessageAdmitted | concordia/agent.py:287-298 | A message built for the current tip is never refused for its signature, session, link or type; only the state table and the round cap can refuse it |
| Envelopes.VerifiedMessageHashes | concordia/signing.py:436-458 | Whatever `verify_signature` accepts has a canonical form and so a hash |
| SignatureMeaning.MessageSignatureIff | concordia/signing.py:436-458 | `verify_signature` accepts exactly what the scheme verifies over the canonical bytes of the message without its signature |
| Envelopes.TipAlwaysDefined | concordia/session.py:130-135 | In every run the chain tip can be computed, so no accepted message can wedge the session |
| BehaviorMeaning.LinkIs | concordia/message.py:28-39 | The link of the next message is `sha256:` and the digest of the canonical text of the last one, or sixty-four zeros at the start |
| Envelopes.SessionHeadPinsHistory | concordia/session.py:235-248 | Two sessions reached by runs, with one tip and one length and every link present, have one history, or a collision is returned |
| ChainSession.VerifyTranscript | concordia/cmpc/chain_session.py:208-216 | The loop accepts exactly the logs in which every record names its predecessor's hash and carries its own |
| ChainSession.ChainSession.TransitionTo | concordia/cmpc/chain_session.py:129-157 | A legal transition whose precondition holds appends one hashed record and stamps the time; a refused one changes nothing |
| ChainSession.TransitionIff | concordia/cmpc/chain_session.py:129-205 | There are four transitions, each with its condition; one happens exactly when it is allowed and its record can be hashed |
| ChainSession.HashedMembersAre | concordia/cmpc/chain_session.py:58-69 | What is hashed of a record: both states by name, the time, the evidence and the previous hash |
| ChainSession.EveryStateWasEarned | concordia/cmpc/chain_session.py:166-205 | In every run the state was reached by a call that had what it takes: complete commitments to open, a proof before the deadline to activate, an unwind record to dissolve, a passed deadline without proof to expire; and whatever closed had opened |
| ChainSession.RunKeepsInv | concordia/cmpc/chain_session.py:129-216 | Every run from an empty log keeps `verify_transcript` true along a legal path, opens before it closes, closes once, and never activates after or expires before the deadline |
| ChainSession.TerminalIsAbsorbing | concordia/cmpc/chain_session.py:22-32 | A closed session never changes its state or its log again |
| ChainSession.LastHashPinsLog | concordia/cmpc/chain_session.py:208-216 | Two valid logs with one last hash agree record by record, length included, or a collision is returned |
| Relay.NegotiationRelay.CreateSession | concordia/relay.py:268-326 | Self-sessions, long TTLs and full stores are refused; overdue sessions are timed out first, even when the post is then refused |
| RelayMeaning.CreateIff | concordia/relay.py:268-326 | A session is created exactly when nothing stands in the way: itself as responder, a lifetime over a week, ten thousand sessions, a hundred live ones; and what it is then |
| Relay.NegotiationRelay.ExpireTimedOutSessions | concordia/relay.py:589-595 | The sweep times out exactly the live overdue sessions |
| RelayMeaning.SweptIs | concordia/relay.py:589-610 | A session times out exactly when it is live and its time is up, and then ends with that reason and time, an attestation being skipped where the responder never confirmed |
| Relay.NegotiationRelay.JoinSession | concordia/relay.py:328-366 | Only a pending, not overdue session can be joined, and a reserved one only by its named responder |
| RelayMeaning.JoinIff | concordia/relay.py:328-366 | Joining happens exactly for a pending session in time that is open to the agent, who becomes its confirmed responder |
| Relay.NegotiationRelay.SendMessage | concordia/relay.py:399-469 | A send appends to the transcript, counts for the sender, and queues the message or drops it on a full mailbox; the concluding kinds conclude the session |
| Relay.NegotiationRelay.LinkConcordiaSession | concordia/relay.py:384-395 | Linking finds the session or changes nothing, and the reverse index names it |
| RelayMeaning.SendIff | concordia/relay.py:399-462 | A send is confirmed exactly when a confirmed party sends in a live session in time, with room in the transcript, a confirmed responder, and room in the other's mailbox |
| RelayContents.SentIsPosted | concordia/relay.py:435-469 | A send that is confirmed leaves, at the end of transcript and mailbox, a queued message with the id, sender, kind, payload, time and lifetime posted, addressed to the other party |
| RelayContents.SendConcludesIff | concordia/relay.py:464-467 | It concludes the session, with its kind as reason, exactly for the four closing kinds |
| Relay.NegotiationRelay.ReceiveMessages | concordia/relay.py:471-510 | One pass sorts a mailbox into expired, kept and delivered messages and returns the delivered ones; it raises exactly when a message in the mailbox has a lifetime that no float holds, and the state it then leaves is given too |
| Relay.NegotiationRelay.ConcludeSession | concordia/relay.py:537-556 | Only a confirmed participant concludes; a timed-out session may become concluded |
| RelayMeaning.ConcludeIff | concordia/relay.py:537-588 | A confirmed party concludes what is not yet concluded or archived; everybody else changes nothing |
| Relay.NegotiationRelay.Archive | concordia/relay.py:612-649 | Only a concluded or timed-out session is archived, once, within the cap |
| RelayMeaning.ArchiveIs | concordia/relay.py:612-649 | What an archive holds, when one is made, and that the session is marked and nothing else changes |
| RelayMail.EveryMessageHasOneFate | concordia/relay.py:449-510 | A transcript message is queued in its recipient's mailbox, delivered to it, expired or dropped: exactly one of these, exactly once, and nobody else has it |
| RelayMail.DeliveriesInSendOrder | concordia/relay.py:486-510 | Deliveries per recipient and session come in send order, never twice |
| RelayMail.PollReturnsFirstWanted | concordia/relay.py:471-510 | A poll hands over exactly the first `limit` unexpired messages of its session, in mailbox order |
| RelayMail.UnfilteredPollEmptiesMailbox | concordia/relay.py:471-510 | An unfiltered poll with room for the whole mailbox leaves nothing in it |
| RelayMail.ReceiveKeepsMail | concordia/relay.py:471-510 | Any mix of filters and limits keeps the mail invariant |
| RelayRuns.StepKeepsInv | concordia/relay.py:268-649 | Every call, with message lifetimes that floats hold, keeps the relay invariant and only moves sessions forward |
| RelayRuns.PollReturns | concordia/relay.py:471-510 | In a state that such a run reaches no poll raises |
| RelayRuns.EverySessionInEveryRun | concordia/relay.py:252-366 | In every such run: ACTIVE implies a confirmed responder, PENDING an empty transcript, sent and received counters match the transcript, and the session, archive, mailbox and transcript caps hold |
| RelayRuns.ConservationInEveryRun | concordia/relay.py:399-510 | Conservation of messages holds after every run with message lifetimes that floats hold: each message in a transcript has exactly one of the four fates |
| RelayContents.RunIsFaithful | concordia/relay.py:399-510 | After every run each message of each transcript has the contents of the post that made it, and goes from one party to the other |
| RelayContents.HandedOverIsPosted | concordia/relay.py:471-510 | After every run, what a poll hands over was posted so by the other party: addressed to the caller, in time, of the session asked for, and marked with the time of the poll |
| RelayRuns.DeliveryOrderInEveryRun | concordia/relay.py:471-510 | Send order of deliveries holds after every such run |
| RelayRuns.TerminalSessionsStayFrozen | concordia/relay.py:537-595 | A session that is over never becomes live again and its transcript keeps its length and every text |
| RelayRuns.RunKeepsCap | concordia/relay.py:292-296 | Under a clock that never goes back nobody has more than 100 live sessions |
| RelayRuns.TranscriptsOnlyGrow | concordia/relay.py:435-449 | Whatever happens, a session keeps every text its transcript ever had |
| RelayDrops.KeptAndDeniedIff | concordia/relay.py:412-465 | A send returns nothing and still grows the transcript exactly when the sender may send and the mailbox of the recipient is full |
| RelayDrops.KeptAndDeniedIsDropped | concordia/relay.py:449-462 | What such a send leaves: the message is the last of the transcript, and every mailbox is as before |
| RelayDrops.FullMailboxIsReached | concordia/relay.py:449-462 | A run that reaches such a send: a thousand offers that nobody has collected |
| RelayOverflow.RaisingPollRepeats | concordia/relay.py:83-86 | A poll that raises hands nothing over and leaves every mailbox as it was, and each later poll of that mailbox raises too |
| RelayOverflow.HugeLifetimeBreaksPolls | concordia/relay.py:486-510 | Conservation needs lifetimes that floats hold: with any larger one, two polls raise, and an offer is marked delivered and counted twice as received that was never handed over |
| Predicates.EvaluateAggregation | concordia/cmpc/predicate.py:699-731 | Aggregation over the commitments: record checks first, then every aggregand must be a finite number, ints that no float holds refused; minimum, maximum, count and the running sum |
| PredicateMeaning.TestIff | concordia/cmpc/predicate.py:441-660 | Every test, by its operator's name: it is true, or false, exactly when its plain reading is, and raises otherwise; comparisons of a field and of an aggregate, membership, before and after |
| PredicateMeaning.FieldIff | concordia/cmpc/predicate.py:733-752 | A dotted field has the value at the end of the path of dicts that its segments name |
| PredicateMeaning.AggregatesIff | concordia/cmpc/predicate.py:699-731 | An aggregation has a value exactly over dicts that all have a number there: the count, the plain sum when no prefix leaves the floats, a least or greatest element |
| RangedSums.OrderFreeIffSettled | concordia/cmpc/predicate.py:725-726 | A float sum over finite terms is the same in every order if and only if gains and losses by themselves stay in range, or the end is out of range anyway |
| PredicateLaws.FailsIffSomePositionBroken | concordia/cmpc/predicate.py:370-439 | Evaluation fails if and only if some node in a Boolean position, at any depth and behind any operand, is broken: a composition without operands, or a test with neither truth value by its plain reading; short-circuiting never hides one |
| PredicateLaws.SatisfiedIff | concordia/cmpc/predicate.py:341-439 | Satisfied means that nothing is broken anywhere and the classical reading is true, its tests taken by their plain reading |
| PredicateLaws.AggregationNeverPasses | concordia/cmpc/predicate.py:419-439 | An aggregation in a Boolean position fails the whole tree, however deep it is |
| PredicateLaws.DoubleNegation | concordia/cmpc/predicate.py:403-407 | Double negation, erroneous nodes included |
| PredicateLaws.DeMorgan | concordia/cmpc/predicate.py:376-407 | Both laws, erroneous trees and empty operand lists included |
| PredicateOrder.ComparisonOrderFreeIff | concordia/cmpc/predicate.py:491-502 | A comparison over readable fields is independent of the order of commitments if and only if no field clashes in type or none compares and fails |
| PredicateOrder.OrderCanMatter | concordia/cmpc/predicate.py:491-502 | Two commitments whose order decides between satisfied and failed |
| PredicateOrder.EvalReordered | concordia/cmpc/predicate.py:370-731 | A tree whose compared fields each have one type class, and whose sums no order pushes out of the floats unless all do, evaluates alike in every order of commitments |
| Bilateral.EvaluateCommitments | concordia/cmpc/predicate.py:252-338 | Satisfied if and only if the committers are exactly the expected set once each, every quantity is a number that a float holds, the running total stays finite and ends within tolerance, it is before the deadline and required mandate proofs exist; and each reason given is true of the commitments |
| Bilateral.EvaluatePredicate | concordia/cmpc/predicate.py:117-167 | Total dispatch: satisfied exactly when the named profile's promise holds, in every other case unsatisfied, parameters and quantities that no float holds included |
| BilateralMeaning.PolicyIff | concordia/cmpc/predicate.py:191-250 | The policy that is read is the one the parameters declare, zero tolerance and no mandate check being the defaults; what declares none is refused |
| BilateralMeaning.SatisfiedByIff | concordia/cmpc/predicate.py:117-373 | Satisfied, down to the members: one of two type names, and parameters that declare a policy the commitments close, committer by committer and quantity by quantity, or an expression that holds |
| Bilateral.OutcomeReordered | concordia/cmpc/predicate.py:252-338 | Neither profile's outcome depends on the order of commitments, given one class per compared field and settled sums |
| Bilateral.QuantityOrderFreeIff | concordia/cmpc/predicate.py:296-316 | The check of the total does not depend on the order of commitments with readable quantities if and only if these are settled or their exact total is outside the tolerance anyway |
| Bilateral.ClosedDealIsComplete | concordia/cmpc/predicate.py:255-294 | In a closed deal every expected participant has exactly one commitment |
| ReceiptBundle.EvaluateOutcomeBinding | concordia/receipt_bundle.py:41-136 | The loop over parties decides the binding state, first failure first |
| CompetenceIssue.BoundIff | concordia/receipt_bundle.py:113-136 | Bound means an accepted version, an identifiable party, and a verifying countersignature of every listed party that has an id; entries without one are passed over |
| AttestationVersion.ParseIff | concordia/attestation.py:243-260 | A text is read as a version exactly when it is that version's text: three numbers without idle zeros, and no further parts |
| SignatureMeaning.BoundIffVerified | concordia/receipt_bundle.py:113-136 | Bound means a version from 0.2 to 0.6.0, an identifiable party, and for every listed party with an id a text under its id in the map, which decodes to octets that the scheme verifies under the resolved key over the canonical bytes of the attestation without map and signatures |
| SignatureMeaning.OneRefusalUnbinds | concordia/attestation.py:1150-1180 | One countersignature that is missing, does not decode, has no key or is refused by the scheme, and the outcome is not bound |
| BundleMeaning.BindingIff | concordia/receipt_bundle.py:41-136 | The three states of outcome binding: bound in full, too old to be bound, and otherwise an error |
| BundleMeaning.PartiesIff | concordia/receipt_bundle.py:99-102 | When the party entries can be read, and that they are then the entries of the list in their order |
| NamelessParties.EveryEntryIff | concordia/receipt_bundle.py:49-136 | Every entry of the party list has countersigned, as the documentation has it, if and only if the outcome is bound and no entry lacks an id |
| NamelessParties.HalfNamedIsBound | concordia/receipt_bundle.py:113-136 | An attestation whose parties are one agent and an entry without an id is bound by the countersignature of that agent alone |
| ReceiptBundle.ComputeSummary | concordia/receipt_bundle.py:191-267 | The nested loops compute the counts, rates, sets and extremes of the attestations' facts, or raise on a shape that cannot be read or a concession magnitude that no float holds |
| SummaryMeaning.FactsAreRead | concordia/receipt_bundle.py:204-243 | Every fact the summary counts is the member it is named after: status, fulfillment, category, timestamp, and per entry the id, concession and reasoning |
| SummaryMeaning.ReadableIff | concordia/receipt_bundle.py:204-243 | Reading an attestation raises exactly on the shapes that cannot be gone through and on magnitudes that no float holds |
| SummaryMeaning.SummaryCounts | concordia/receipt_bundle.py:204-262 | Agreements are the attestations whose outcome is `agreed`; both rates are quotients of such counts |
| SummaryMeaning.SummaryNames | concordia/receipt_bundle.py:214-260 | The number of counterparties is that of the different ids other than the agent's; the categories are those that some attestation has, each once |
| SummaryMeaning.SummaryExtremes | concordia/receipt_bundle.py:239-260 | No timestamp precedes the earliest or follows the latest, and both belong to attestations; they are empty when there is none |
| SummaryMeaning.SummaryMeans | concordia/receipt_bundle.py:217-262 | The mean is over the agent's own magnitudes, and the reasoning rate over its own entries with reasons |
| ReceiptBundle.SummarizeReordered | concordia/receipt_bundle.py:191-267 | The summary does not depend on the order of the attestations, given concession magnitudes whose sum no order pushes out of the floats unless all do |
| CompetenceProof.VerifyCompetenceProof | concordia/competence_proof.py:492-876 | The verifier's validity, Merkle flag and aggregate flag, or the exception on a reveal that cannot be read or a claimed rate that no float holds; the aggregate is verified if and only if reveals are checked and the declarative gate holds |
| BundleMeaning.ValidProofIff | concordia/competence_proof.py:492-876 | A proof whose reveals are checked is valid exactly when it is signed and counted, no listed proof is refused, every party entry is signed and verifies where its key resolves, every outcome is bound or old, and a full reveal recomputes |
| BundleMeaning.ClaimsIff | concordia/competence_proof.py:764-790 | Claims agree when counts, names and times are equal and the four rates are within a thousandth |
| CompetenceProof.AggregateVerifiedIff | concordia/competence_proof.py:760-838 | Counting distinct ids proves that the revealed ids are pairwise distinct and that each reveal has a valid membership proof, a bound outcome, no bad party signature and the prover as a party |
| SignatureMeaning.GateIff | concordia/competence_proof.py:492-876 | The gate of a verified aggregate in full: the prover's signature, the counts, and for each revealed attestation the accepted proof first listed for it, its binding, its party signatures and the prover among its parties, all down to the scheme |
| SignatureMeaning.OneRefusalClosesGate | concordia/competence_proof.py:760-838 | One refused countersignature in one revealed attestation, and the aggregate is not verified |
| SignatureMeaning.CheckPartyIs | concordia/competence_proof.py:648-700 | The three results of checking a party entry: verified, key unresolved, and bad, which includes an absent or empty signature |
| CompetenceProof.CheckMembership | concordia/competence_proof.py:627-647 | The first Merkle proof listed for an id decides |
| CompetenceIssue.GateCommitsToRevealedIds | concordia/competence_proof.py:794-816 | Whatever duplicate-free id list the signed root commits to is a permutation of the revealed ids, or a collision is returned |
| CompetenceIssue.AssembleBody | concordia/competence_proof.py:300-360 | The loops of `create`, over attestations and over the ids to reveal, give the summary, root, proofs and reveals that the completeness theorem speaks of, or raise |
| CompetenceIssue.FullRevealPassesGate | concordia/competence_proof.py:279-360 | A full reveal, in any order, made by `create` over distinct and fully bound attestations, whose concession magnitudes sum alike in every order, passes the gate |
| BundleVerification.VerifyBundle | concordia/receipt_bundle.py:427-740 | The verifier returns unless an attestation cannot be read, a concession magnitude or a claimed rate being beyond the floats included; it accepts exactly the bundles that are signed, soundly attested, distinct in ids and sessions, and agree with the recomputed summary, and it reports the counterparties credited and doubted |
| BundleMeaning.ValidBundleIff | concordia/receipt_bundle.py:427-740 | A valid bundle in full: signed by its agent, every attestation signed by its parties, bound or old, set-bound or old, naming the agent, no id or session twice, and the compared fields of the summary close |
| BundleVerification.CheckDistinct | concordia/receipt_bundle.py:566-573 | Counting a set against the list finds exactly the lists with a repetition |
| BundleVerification.ConfirmedIff | concordia/receipt_bundle.py:517-557 | A counterparty is credited exactly when some attestation entry naming it carries a signature that verifies under its key for that session |
| SignatureMeaning.CreditedIff | concordia/receipt_bundle.py:517-557 | Credit down to the scheme: an entry naming the counterparty, verified under its key for that attestation's session |
| BundleVerification.CounterpartiesAddUp | concordia/receipt_bundle.py:517-564 | Credited and unverified counterparties together are as many as the recomputed summary counts, nobody being both |
| BundleVerification.OverclaimMeansUnverified | concordia/receipt_bundle.py:557-565 | In a valid bundle the claimed counterparties exceed the credited ones exactly when somebody is unverified; in one without attestations, exactly when any are claimed |
| BundleVerification.BoundOrListed | concordia/receipt_bundle.py:579-608 | Every attestation is counted as bound or listed as unbound |
| BundleVerification.CreatedBundleValidIff | concordia/receipt_bundle.py:288-740 | A bundle that `create` makes over readable attestations is valid if and only if its attestations and sessions are distinct and none of them is an error by itself |
| BundleClaims.ValidSummaryIsTrueIff | concordia/receipt_bundle.py:695-719 | The summary of a valid bundle agrees with the recomputed one in every field if and only if there are attestations or nothing is claimed, and the rate of fulfillment and both extreme timestamps, which are not compared, are right |
| BundleClaims.EmptyBundleClaimsAnything | concordia/receipt_bundle.py:695-697 | A signed bundle without attestations is valid whatever its summary claims |
| BundleClaims.RestatedIsValidIff | concordia/receipt_bundle.py:699-719 | Signing another fulfillment rate or other extreme timestamps makes no difference to validity |
| BundleClaims.WrongRateAccepted | concordia/receipt_bundle.py:699-719 | One old attestation makes a bundle that is valid as created, and as valid with a wrong rate |
| BundleClaims.LegacyBundleExists | concordia/receipt_bundle.py:278-330 | Every agent has an old attestation that makes such a bundle, if rounding zero gives a float |
| SignedRecords.BundleSignatureCheck | concordia/receipt_bundle.py:322-331 | Checking a bundle is `verify_signature` over what is left of the received dict, which is the dict that `create` signed |
| SignedRecords.ProofSignatureCheck | concordia/competence_proof.py:371-382 | The same for a competence proof |
| SignedRecords.BundleBytesBind | concordia/receipt_bundle.py:322-331 | The bytes under a bundle signature determine its ids, every field of its summary and every attestation |
| SignedRecords.ProofBytesBind | concordia/competence_proof.py:371-382 | The bytes under a proof signature determine its ids, its root and count, every claim, every membership proof and every revealed attestation |
| Matching.ComputeTermOverlap | concordia/want_registry.py:299-406 | The loop over the key set, early returns included: which results its order can produce |
| MatchingMeaning.CategoriesIff | concordia/want_registry.py:236-247 | Categories fit exactly when the segments of one begin with those of the other |
| MatchingMeaning.RankIff | concordia/want_registry.py:293-296 | The rank of a condition is its place among poor, fair, good, like_new, new in any case; other texts have none |
| MatchingMeaning.PriceTermIs | concordia/want_registry.py:322-352 | Prices conflict exactly when the most that is paid is below the least that is asked; the score falls with the share of the range that the spread takes, down to one half |
| MatchingMeaning.ConditionTermIs | concordia/want_registry.py:353-374 | Conditions conflict exactly when both are standard and the offered one ranks lower; else the score is full, zero for the lowest, half when one is unknown |
| MatchingMeaning.OtherTermIs | concordia/want_registry.py:375-400 | Terms of other kinds never conflict and score by kind: fuzzy, equal, different, unrecognised |
| Matching.RaisesIff | concordia/want_registry.py:337-358 | A term raises exactly when it is compared as a condition and a condition is no string, or when its prices overlap by more than a float holds |
| MatchingMeaning.PricesRaiseIff | concordia/want_registry.py:337-349 | Overlapping prices raise exactly when both are ints whose spread is the float limit times the span or more, or one is an int that no float holds beside a float |
| Matching.TermResultUnique | concordia/want_registry.py:322-406 | When no shared term raises, the overlap and score are one and the same in every order of keys, and the score is in [0, 1] |
| Matching.HugeSpreadRaises | concordia/want_registry.py:337-349 | A want of at most 1 against a have of at least the negative of any int beyond the floats raises |
| Matching.ScoreInUnit | concordia/want_registry.py:403-406 | The score is in [0, 1] |
| Matching.ZeroScoreIff | concordia/want_registry.py:322-406 | Terms that neither conflict nor raise score zero if and only if both sides have the same keys and every shared key has a side that is no object, or is a condition of lowest rank on both sides |
| Matching.PoorNeverMatchesPoor | concordia/want_registry.py:353-428 | A sole condition term, `poor` wanted and `poor` offered, satisfies the minimum and never matches |
| Matching.EmptyTermsNeverMatch | concordia/want_registry.py:405-428 | Two entries without terms never match |
| Matching.ComputeMatch | concordia/want_registry.py:409-454 | Categories, agents, expiry, terms and location are checked in order |
| MatchingMeaning.PlacesIff | concordia/want_registry.py:248-290 | Places stand in the way exactly when both are known, there is a radius, and they are further apart |
| MatchingMeaning.MatchIff | concordia/want_registry.py:409-454 | When two entries match, terms and places being ordinary: categories fit, agents differ, both are in time, no shared term conflicts, something counts in their favour, and they are not too far apart |
| MatchingMeaning.FoundIs | concordia/want_registry.py:427-454 | A match keeps the overlaps, carries the distance exactly when both entries have places, and within a radius its score is four fifths of the terms and one fifth of how near they are |
| MatchingMeaning.FinishRaisesIff | concordia/want_registry.py:425-446 | Once the terms score, a comparison raises exactly when a coordinate is an int beyond the floats, or the radius is and both places lie within it |
| MatchingMeaning.OrdinaryLocationIff | concordia/want_registry.py:249-296 | Coordinates and radius are ordinary exactly when none of them is an int beyond the floats |
| Matching.MatchScoreInUnit | concordia/want_registry.py:436-443 | Every match scores in (0, 1], the proximity adjustment included |
| Matching.MatchUnique | concordia/want_registry.py:409-454 | When no shared term raises there is one result, and no exception if the coordinates and the radius are ordinary: numbers that floats hold |
| Matching.HugeRadiusRaises | concordia/want_registry.py:430-440 | A radius that is an int beyond the floats raises against every entry with coordinates whose terms match |
| Registry.Expire | concordia/want_registry.py:552-555 | The sweep removes exactly the expired entries and keeps the index right |
| Registry.InsertIsOk | concordia/want_registry.py:501-519 | An insertion that the limits allow keeps the store cap, the per-agent cap at any later time, and index equal to full scan |
| MatchingMeaning.ValidLocationIff | concordia/want_registry.py:57-98 | Which locations a post may carry |
| MatchingMeaning.StoredEntryIs | concordia/want_registry.py:482-523 | A post stores its arguments, to expire its lifetime after it was created |
| MatchingMeaning.PlacedIff | concordia/want_registry.py:496-519 | A post enters the store exactly when location and lifetime are in order and the swept store is not full |
| MatchingMeaning.FullIff | concordia/want_registry.py:501-505 | Full means fifty thousand entries, or a hundred live ones of the same agent |
| MatchingMeaning.ExtendedIff | concordia/want_registry.py:655-659 | Every match found is stored, or as many of them as fit below a hundred thousand |
| Registry.MatchAll | concordia/want_registry.py:648-677 | Comparing a posting with every live entry of the other side, in any order, returns exactly the matches that `compute_match` gave, sorted by score, and stores them, or as many as the cap allows; it raises only if some comparison can, and then keeps those stored before |
| Registry.PostReturnsWhatMatches | concordia/want_registry.py:409-454 | Against an entry with which no shared term raises `compute_match` has one result, and a post returns that entry exactly once, with that score, if it is live and the result is a match, and not at all otherwise |
| Registry.PostResultsAgree | concordia/want_registry.py:648-662 | When no shared term raises, the returned matches do not depend on the order of entries and keys |
| Registry.PostedScoresInUnit | concordia/want_registry.py:409-454 | Every match that a post returns scores in (0, 1] |
| Registry.OrdinaryNeverRaises | concordia/want_registry.py:648-662 | A post does not raise against entries with which no shared term raises, the locations being ordinary |
| Registry.HugeRadiusPoisons | concordia/want_registry.py:57-98 | A want whose radius is an int beyond the floats passes the validation of locations; once it is stored, every post of a have with coordinates that fits its terms raises |
| Registry.WantRegistry.PostWant | concordia/want_registry.py:482-523 | A post is refused for the first of the named reasons that holds, or stored and compared with every live have; indexes and caps are kept |
| Registry.WantRegistry.PostHave | concordia/want_registry.py:566-605 | The same for supply |
| Registry.WantRegistry.ListWants | concordia/want_registry.py:538-543 | Listing through the index finds exactly the agent's live wants that a full scan would find |
| Registry.WantRegistry.WithdrawWant | concordia/want_registry.py:532-536 | Withdrawal removes the entry from store and index alike |

## Left out

- Cryptography: Ed25519 and SHA-256 are parameters; ES256 and its low-S normalisation are not modelled.
- Dictionaries with keys that are not strings, CPython's limit on the length of an int's text, recursion limits, and the textual splitting of `repr`, which is represented by its parts.
- Binary floating point: floats are the decimals that `repr` shows; sums, means and scores are over the reals, `round(x, 4)` is a parameter, and NaN or infinite measurements count as no number. Leaving the range of the floats is modelled, rounding is not.
- Predicates.EvaluateAggregation: an infinite sum is an error, where the code returns an infinite float; either way the tree around it fails.
- Negotiation.ConcessionRaisesIff: a sum of movements that becomes infinite is still a real here; the code goes on with an infinite mean.
- Relay.NegotiationRelay.CreateSession: takes lifetimes that floats hold, as its type `Seconds` says; the code refuses larger ones as too long, accepts those below the range, and raises at the next look at such a session's clock.
- The types of claimed summary fields: counts are ints and rates numbers, as `BundleSummary` declares them.
- Datetimes are instants; mixing naive and aware ones is not modelled.
- Lone surrogates in Merkle ids and in texts to be hashed, on which `encode` raises.
- Identifiers, categories and timestamps that are not strings: they raise here, where the code would go on comparing them as Python values.
- Object identity: records returned to callers are values, so a caller that later mutates a message, session or entry it was handed is not modelled. The sharing of relayed messages between transcript and mailbox is.
- Callbacks that re-enter the session from `on_terminal`.
- Presence checks of fields when a proof or message arrives as a bare dict, and the wording of errors and warnings; a competence proof's lists of unverified parties and unbound outcomes are not returned.
- Party roles, key registry, endpoints, `last_seen`, metadata and `public` flags, which decide nothing.
- `get_transcript`, `list_sessions`, `list_archives`, `find_matches`, searches and statistics: filters over the modelled state.
- `get_have`, `withdraw_have` and `list_haves` of the registry repeat their want counterparts.
- The bundle store, Sybil screening, and the warnings about legacy outcomes and post-issuance fulfillment, none of which decides validity.
- Registry.PostResultsAgree: is about entries with which no shared term raises; with others `compute_match` may raise or not with the order of a set, and Registry.MatchAll allows both.
- Merkle.RootCommitsToIds: needs ids that are not 128 characters long, because leaves and inner nodes share one hash domain; issuance makes ids of a dozen characters.
- SetBinding.ReceiptPinsTranscript: assumes that both chains are valid, because set-binding does not check it.
- The field-by-field structure validators of attestations, the rest of `verify_attestation_artifact`, mandates, approvals, revocation, discovery, the MCP tools and all network and disk access.
