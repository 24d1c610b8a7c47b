# Neverlur verification model

Neverlur lets friends find each other without revealing who they are. Clients send fixed-size onions through a
chain of mixers, pick up mailboxes from a content server, and derive keys from a ratcheting keywheel. Configs,
PKG keys and mixer settings are protected by signatures. This project models those layers in Dafny 4.11 and proves
properties of them. `dafny verify dfyconfig.toml` checks the whole project.

## What is modelled

- **The mix chain.** `mixchain.dfy` says what a chain of mixers does as a function, and `mixround.dfy` computes it
  in place, as the mixer's round state does: slots filled by pieces that arrive in any order, the duplicate filter with
  its index map, noise, permutation, the call to the rest of the chain, un-permuting and resealing.
  `mixrouting.dfy` proves reply routing, one-way delivery and the size law by induction over the hops, and
  `mixnoise.dfy` is the noise that the services generate.
- **Mixer settings.** `mixsettings.dfy`: opening rounds, signing settings once, deleting rounds.
- **TOML.** `tomllexer.dfy` says what the tokens of a text are, and is the lexer with its state functions. `lrtheory.dfy`
  is a theory of table-driven parsers; `tomlgrammar.dfy` holds the grammar and the generated tables and shows that they
  satisfy it; `tomlvalues.dfy` gives the meaning of a document, table insertion above all; `tomlparse.dfy` is the goto-driven loop with its stack.
  `tomltext.dfy` writes documents down and shows that they are read back.
- **Protobuf.** `varint.dfy`, `convopb.dfy` and `convopbcode.dfy`: the generated writer and reader. The generated code
  repeats one pattern per message; the model writes the pattern once, over a schema, and lists the thirteen schemas.
- **Configs.** `configchain.dfy` and `configserver.dfy`: the hash chain, its verifier, the client's checks, the server's
  store and the chain walk.
- **PKG rounds.** `sortedkeys.dfy` and `pkgrounds.dfy`: commit, reveal and the client's check.
- **Add-friend.** `addfriend.dfy` is the protocol of all clients and the network as a state machine;
  `addfriendclient.dfy` is one client over its queues of request objects; `addfriendmailbox.dfy` is the mailbox.
- **Dialing.** `keywheel.dfy`, `bloom.dfy`, `dialing.dfy` and `dialclient.dfy`, up to the end-to-end call;
  `friendcalls.dfy` goes from the friend request to the call.
- **Coordinator and hub.** `coordinator.dfy` is the round counter with its persistence and the onion batches;
  `hub.dfy` is the websocket hub at the granularity of its locks.

Cryptography is a record of functions with stated laws (`Lawful` in each module): sealing and opening invert each other
with a fixed overhead, key agreement commutes, a config's encoding and digest do not collide, a signature of an honest
signer verifies. Where the agreement of PKG clients needs it, the signature that a client holds is not forged
(`PkgRounds.Unforged`) and commitments do not collide on the keys that the clients hold (`PkgRounds.Binding`).
No ML-DSA signature verifies under two keys where the exact condition for `Verify` needs it (`ConfigChain.Scheme.KeyBound`).
Randomness, clocks, the network's order and permutations are parameters. Client handlers, mixer calls and PKG
handlers are atomic steps; only the hub is modelled at its locks.

## What the proofs found

- A link of the config chain can be accepted although the new config does not pass `Verify`: a guardian that keeps its
  Ed25519 key is not checked again under a new ML-DSA key. `LinkIsSelfSigned` gives the exact condition.
- A config that is installed by hand with a previous hash that is not stored makes the chain walk panic.
  `DanglingPanics` is such a config, and `WalkableIff` says exactly which configs keep every request answered.
- A dialing mailbox of fewer than four bytes leaves the client with a filter without hashes, which has every token:
  every friend is reported as calling with every intent. `ScanBloomFilter` states exactly which calls are reported.
- `UpdateIntent` accepts any integer, and `Call` any negative one; the callee hears the intent modulo 2^32 when that is below 3.
  `OwnIntentHeardIff`: its own intent is heard exactly when it is one of the intents; 2^32 + 1 is heard as 1 (`WrappedIntentIsHeard`).
- A dial token is missing, and the client dereferences nil, exactly when the friend or the round's secret is gone or the round is 0.
- The expected key of a friend request is documented as authoritative but is never compared with the introduction's key:
  `ExpectedKeyRespectedIff` says when it is respected, and `WrongKeyIsKept` is a run in which it is not.
- Cancelling the confirmation that `Approve` returns dereferences nil.
- With empty replies, a mixer's worker seals the reply of a dropped onion under the key of a slot it took before, and
  panics exactly when its first slot has no message (`EmptyReplySource`, `EmptyRepliesHeldIff`); which slots these are
  depends on how the workers share them.
- Noise counts that add up to 2^32 or more make `GenerateNoise` panic.
- Two requests to one user in one dial round can leave the two friends with different secrets (`TwoLettersDisagree`, in
  every lawful group). `PutsAgreeIff`: when keys are fresh and secrets do not collide, they agree exactly when both
  were made from the same two letters.
- A PKG that commits again to a round it has deleted makes new keys and can sign a second time for that round
  (`GoingBackSignsTwice`); a commit to round 0 drops every round.
- A dialing service with no mailboxes, a number that nothing checks, makes a client with a call divide by zero.
- Erasing round 2^32-1 erases nothing, and the coordinator announces round 0 after the last one: the order is kept exactly
  below it (`NextIncreasesIff`).

## Model

| member | source | states |
|---|---|---|
| MixChain.KeptAt | mixnet/mixnet.go:479-502 | the index map of the filter: a slot that opened and is first with its deduplication key finds its own message at the index that counts the kept slots before it |
| MixChain.OpenedReadable | mixnet/mixnet.go:336-368 | every onion that opens at a hop has exactly the next hop's onion size, so the last eight bytes that the filter reads are there |
| MixRound.RoundState.OpenStream | mixnet/mixnet.go:423-438 | a stream that announces a number of onions makes that many empty slots when there are none yet, and turns accepting on; any other number than the slots there are is refused, and nothing else changes |
| MixRound.RoundState.AddOnions | mixnet/mixnet.go:440-464 | a request with an offset fills exactly its slots while onions are accepted; one that goes beyond the slots is refused, and then, or when onions are no longer accepted, no slot changes |
| MixRound.RoundState.Decrypt | mixnet/mixnet.go:336-368 | a decryption job opens each onion of the right size into its slot and keeps its shared key; slots of other onions are untouched |
| MixRound.RoundState.FilterIncoming | mixnet/mixnet.go:479-502 | the collected messages and the index map are those of the first slot for each deduplication key, in slot order |
| MixRound.RoundState.EncryptReplies | mixnet/mixnet.go:612-639 | however the slots are shared out between the workers, each worker seals its slots under the key that it holds, as KeySource says, and the call succeeds exactly when no worker comes to a slot without a key, which is a nil dereference |
| MixRound.Sealing.OwnKeyIff | mixnet/mixnet.go:620-635 | a slot is sealed under a key of its own exactly when replies are not empty or the slot has a message; with replies that are not empty, under its shared key when it has a reply of the right size and under a fresh one otherwise |
| MixRound.SealShare | mixnet/mixnet.go:615-637 | one worker: the slots that it takes are sealed as KeySource says, up to the first one without a key, and no other slot changes |
| MixRound.Sealing.EmptyReplyTakesKey | mixnet/mixnet.go:620-635 | with empty replies, a slot without a message takes over the key of the slot that its worker took before it, whatever that was; the first slot of a worker has none |
| MixRound.Sealing.EmptyReplySource | mixnet/mixnet.go:620-635 | with empty replies, a slot is sealed under the key of the last slot with a message that its worker took up to it, and has none exactly when there is no such slot |
| MixRound.Sealing.EmptyRepliesHeldIff | mixnet/mixnet.go:620-635 | with empty replies, a worker comes to no slot without a key exactly when its first slot has a message |
| MixRound.RoundState.GetOnions | mixnet/mixnet.go:641-673 | the slice of sealed replies, exactly when the service is two-way and the range is inside |
| MixRound.RoundState.ReceiveBatch | mixnet/mixnet.go:861-916 | a batch that arrives in pieces, in any order, leaves every slot opened as if it had come at once |
| MixRound.RoundState.FetchReplies | mixnet/mixnet.go:944-1016 | the replies read back in pieces are the sealed replies in order |
| MixRound.RoundState.CloseRound | mixnet/mixnet.go:504-610 | closing runs the filter, the noise, the permutation, the rest of the chain and the resealing, in a state proved equal to the functional chain; closing again repeats the stored result and changes nothing |
| MixRound.RunRoundBidirectional | mixnet/mixnet.go:944-1016 | a two-way round over any number of mixers returns exactly the replies of the functional chain, or fails exactly when the service fails |
| MixRound.RunRoundUnidirectional | mixnet/mixnet.go:918-942 | a one-way round over any number of mixers hands exactly the delivered messages to the last mixer's service |
| MixRouting.ReplyRouting | mixnet/mixnet.go:504-639 | over a chain of any length: the reply in slot i of the first mixer opens, with the keys slot i shares with each hop, to the service's answer to the message slot i carried; or it is a dummy of some hop, of the same size, when a hop dropped the slot or the reply had the wrong size |
| MixRouting.ReplySizes | mixnet/mixnet.go:612-639 | every sealed reply of a hop has exactly the size that the hop before it seals |
| MixRouting.ClientRoundTrip | mixnet/mixnet.go:504-639 | for a sealed client message that is first with its deduplication key at each hop: the service sees it at one position, and when its answer there has the reply size, the client's own keys open the reply to that answer |
| MixRouting.OpenSealedLayers | mixnet/mixnet.go:612-639 | opening the layers in the reverse order of sealing gives the reply back |
| MixRouting.DeliveredHasSource | mixnet/mixnet.go:540-608 | every message that reaches the last mixer comes from one client slot or one noise slot, which carried exactly that message |
| MixRouting.ArrivalIsUnique | mixnet/mixnet.go:540-608 | a source that no hop drops arrives at one position, and that position names it as its source |
| MixRouting.DeliveryIsInjective | mixnet/mixnet.go:540-608 | no two sources arrive at one position, so no source is delivered twice |
| MixRouting.ClientDelivered | mixnet/mixnet.go:479-608 | a sealed client message that is first with its deduplication key at each hop is delivered, at exactly one position |
| MixRouting.SealedArrivesIff | mixnet/mixnet.go:479-608 | a sealed message arrives exactly when at each hop no message of an earlier slot ends in the same eight bytes as its inner layer there; that its layers open is proved |
| MixRouting.SameKeyIff | mixnet/mixnet.go:485-487 | two messages have one deduplication key exactly when they end in the same eight bytes |
| MixRouting.AnsweredIff | mixnet/mixnet.go:504-639 | a slot is answered exactly when its message arrives and the service's answer for it has the reply size |
| MixRouting.SealedOnionPeels | mixnet/mixnet.go:336-368 | a sealed onion has the size each hop expects, and the hops peel it to its message under the keys the sender used |
| MixRouting.ForwardSizes | mixnet/mixnet.go:247 | with honest noise, everything a mixer after the first receives has exactly its incoming onion size, and everything delivered has the service's message size |
| MixRouting.CollectedSizes | mixnet/mixnet.go:540-560 | a hop's honest noise and its kept messages all have the next hop's size |
| MixNoise.GenerateNoise | addfriend/mixer.go:102-140 | noise is one sealed message for every draw, in the order of the mailboxes, zeros for mailbox 0; it panics exactly when the total does not fit 32 bits |
| MixNoise.SlotsCount | dialing/mixer.go:78-95 | each mailbox gets exactly as many noise messages as were drawn for it |
| MixNoise.GeneratedIsHonest | dialing/mixer.go:97-109 | generated noise is honest noise: onions for the mixers that follow, of the service's message size |
| MixSettings.MyPos | mixnet/mixnet.go:226-241 | a mixer's place is the last one in the chain with its key; none when its key is not there |
| MixSettings.Server.OpenRound | mixnet/mixnet.go:185-258 | opening a round: unknown services and bad chains are refused, an open round keeps its key |
| MixSettings.Server.SetRoundSettings | mixnet/mixnet.go:268-328 | settings are signed once per open round, only when they have one key per mixer and this mixer's own key at its place; later calls return the first signature |
| MixSettings.Server.DeleteRound | mixnet/mixnet.go:675-690 | deleting forgets the round, and fails when there is none |
| MixSettings.SettingsAgree | mixnet/mixnet.go:281-327 | over every run of opening, setting and deleting in which onion keys are not drawn twice, two signed settings for one own key are the same settings |
| MixSettings.SamePlaceSameSettings | mixnet/mixnet.go:281-327 | two signed settings with the same key at the mixer's place are equal |
| LRTheory.ParserSound | encoding/toml/parser.go:296-646 | a table-driven run that accepts found a derivation of all of its tokens from the start symbol |
| LRTheory.ReducedLinked | encoding/toml/parser.go:436-467 | after a reduction the states on the stack are again joined by transitions on the symbols under them |
| LRTheory.HandleOnTop | encoding/toml/parser.go:436-467 | the states that a reduction pops have accessing symbols that spell the production's right side |
| LRTheory.ParserComplete | encoding/toml/parser.go:296-646 | every derivation is found by the run over its tokens |
| LRTheory.AcceptsExactlyDocuments | encoding/toml/parser.go:296-646 | a token sequence is accepted exactly when the grammar derives it |
| LRTheory.Unambiguous | encoding/toml/parser.y:54-170 | a grammar with such a parser has one derivation per token sequence |
| TomlGrammar.ProductionTables | encoding/toml/parser.go:73-132 | the generated left-side and length tables agree with the grammar's productions |
| TomlGrammar.NoErrorTransitions | encoding/toml/parser.go:389-433 | no state has a transition on the error token, so error recovery always gives up |
| TomlAutomaton.ShiftTable | encoding/toml/parser.go:338-360 | the packed action table shifts exactly along the transitions of the grammar's automaton |
| TomlAutomaton.GotoTable | encoding/toml/parser.go:436-467 | the packed goto table leads along the automaton's transitions |
| TomlAutomaton.RanksAreCoherent | encoding/toml/parser.go:362-388 | default reductions, empty ones included, strictly lower a weight, so the loop ends |
| TomlAutomaton.FollowIsCoherent | encoding/toml/parser.y:54-170 | what can come after each part of a production, which is where the tables reduce by default |
| TomlAutomaton.TomlCoherent | encoding/toml/parser.go:73-132 | the generated tables are coherent with the automaton of the grammar, so the general theory holds of them |
| TomlAutomaton.TomlParserCorrect | encoding/toml/parser.go:296-646 | the generated tables accept exactly the token sequences that the grammar derives, with their only derivation |
| TomlParse.YyLex1 | encoding/toml/parser.go:257-290 | token constants are translated to the tables' numbers |
| TomlParse.TokenSource.Lex | encoding/toml/lexer.go:431-439 | an error item reads as the end of input and records the error |
| TomlParse.TryShift | encoding/toml/parser.go:338-360 | the shift attempt reads a lookahead only when the state needs one, and finds the action table's entry |
| TomlParse.Default | encoding/toml/parser.go:362-388 | the default action, through the exception table for the accepting state |
| TomlParse.Recover | encoding/toml/parser.go:389-433 | error recovery looks down the whole stack and never finds a state that shifts the error token |
| TomlParse.Push | encoding/toml/parser.go:318-332 | pushing grows the stack when it is full and keeps what is below |
| TomlParse.Action | encoding/toml/parser.go:469-645 | each semantic action computes the meaning of its production from the meanings of its right side |
| TomlParse.ReduceBy | encoding/toml/parser.go:436-645 | a reduction replaces the values of the right side by the value of the left side and goes to the goto state |
| TomlParse.MeaninglessStays | encoding/toml/parser.go:469-645 | once an action fails no later move can give the document a meaning, so returning at once is right |
| TomlParse.ParseItems | encoding/toml/parser.go:296-646 | the driver loop ends; it returns 0 exactly when the tokens have a derivation whose meaning is defined, and then with that meaning |
| TomlParse.ParseText | encoding/toml/decode.go:73-81 | a document is decoded exactly when its items have no lexical error, its tokens derive from the grammar and the meaning is defined; the result is that meaning |
| TomlParse.Parse | encoding/toml/decode.go:73-81 | a text is decoded exactly when it has no lexical error, its tokens derive from the grammar and the meaning is defined; the result is the meaning of the only document with its tokens |
| TomlValues.InsertedIsFound | encoding/toml/parser.go:486-533 | after a table section is placed its path leads to the table that was there before, or an empty one, with exactly the section's entries added |
| TomlValues.ArraySectionIsFresh | encoding/toml/parser.go:486-533 | an array section adds a table with exactly its entries after the array's other tables, which stay as they were |
| TomlValues.OtherPathsUnchanged | encoding/toml/parser.go:486-533 | tables whose path parts from the section's stay as they were |
| TomlValues.InsertFailsWhenBlocked | encoding/toml/parser.go:486-533 | a section is refused exactly when some prefix of its name is a value it cannot go through or reuse |
| TomlLexer.Lexer.LexTableBody | encoding/toml/lexer.go:191-220 | the state between entries puts out what the text's items say, and hands over to the state that reads the rest of them |
| TomlLexer.Lexer.LexComment | encoding/toml/lexer.go:222-230 | a comment is read to its newline or to the end of the input |
| TomlLexer.Lexer.LexTableNameEnd | encoding/toml/lexer.go:263-284 | after a key of a table name: one dot and on to the next key, the closing bracket or brackets, or an error exactly when there is neither |
| TomlLexer.Lexer.LexValue | encoding/toml/lexer.go:324-375 | the state inside a value puts out what the text's items say, its errors among them, and hands over to the state that reads the rest of them |
| TomlLexer.Lexer.ScanQuote | encoding/toml/lexer.go:378-393 | a string ends at the first quote that no backslash escapes; it fails exactly when a newline, a NUL or the end comes before one |
| TomlLexer.Lexer.ScanNumber | encoding/toml/lexer.go:406-424 | the longest number is read: a sign, digits, a dot with digits and an exponent, each of which may be missing; it fails exactly when a word would go on right after it |
| TomlLexer.Lexer.Run | encoding/toml/lexer.go:170-175 | the state machine ends on every input |
| TomlLexer.Lex | encoding/toml/lexer.go:159-175 | lexing ends with exactly the items that the text has, one token at a time |
| TomlLexer.TokensCover | encoding/toml/lexer.go:86-117 | the tokens of a text are disjoint slices of it in order, each of its type's form, with only blanks, newlines and comments between them, and at most one dot after a key of a table name; a NUL-free text that ends without an error is covered to its end |
| TomlLexer.BadIff | encoding/toml/lexer.go:191-375 | the lexer fails at a place exactly when no token that may come next stands there, nothing that is left out, and not the end |
| TomlText.TreeLeads | encoding/toml/parser.y:54-170 | every document of the grammar can be written down, token by token, with entries and sections on lines of their own |
| TomlText.DocumentIsRead | encoding/toml/lexer.go:170-440 | a document whose tokens are spelled right, written as a text, is lexed back to exactly its tokens without an error |
| TomlText.ReadWritten | encoding/toml/decode.go:73-81 | decoding a written document gives its meaning, or fails exactly when it has none |
| Varints.VarintRoundTrip | mixnet/convopb/mixnet.pb.go:1063-1070 | every 64-bit value is read back from its varint, whatever follows |
| Varints.SovMixnet | mixnet/convopb/mixnet.pb.go:1249-1258 | the predicted size is the number of bytes of the varint |
| Varints.EncodeVarintMixnet | mixnet/convopb/mixnet.pb.go:1063-1070 | the varint is written at the offset and nothing else changes |
| Varints.ReadVarintAt | mixnet/convopb/mixnet.pb.go:1319-1335 | the reader's shift loop, with its overflow and end-of-input errors |
| ConvopbCode.Size | mixnet/convopb/mixnet.pb.go:1072-1247 | the size of a message is exactly the number of bytes it is written as |
| ConvopbCode.MarshalTo | mixnet/convopb/mixnet.pb.go:682-1061 | writing fills exactly those bytes from the given position and returns their number; the rest of the buffer stays |
| ConvopbCode.Marshal | mixnet/convopb/mixnet.pb.go:690-698 | a new buffer holds the message and nothing more |
| ConvopbCode.SkipMixnet | mixnet/convopb/mixnet.pb.go:2561-2659 | skipping an unknown field computes its length, through nested groups; the end that panics is never reached on a field that is there |
| ConvopbCode.Unmarshal | mixnet/convopb/mixnet.pb.go:1262-2560 | the reading loop over all fields, known and unknown, with each of its errors |
| ConvopbCode.UnmarshalContent | mixnet/convopb/mixnet.pb.go:1345-1421 | the value of a known field: wrong wire types, negative and overlong lengths, replacing, appending and merging |
| ConvopbCode.MarshalUnmarshal | mixnet/convopb/mixnet.pb.go:690-2560 | marshalling and unmarshalling gives the message back |
| ConvopbCode.MixnetMessages | mixnet/convopb/mixnet.pb.go:53-355 | all thirteen messages of the protocol satisfy the round trip |
| Convopb.RoundTrip | mixnet/convopb/mixnet.pb.go:690-2560 | for every message value reading its bytes into a zero message gives the value back, with nested messages and empty repeated elements |
| Convopb.DecodeEncode | mixnet/convopb/mixnet.pb.go:690-2560 | reading the bytes of a message into any message merges the two |
| Convopb.DecodeConcat | mixnet/convopb/mixnet.pb.go:1312-1440 | when a reads, reading a followed by b is reading b into the result of a |
| Convopb.SkipWire | mixnet/convopb/mixnet.pb.go:2561-2659 | a well-formed field of any wire type, groups within groups among them, is skipped by exactly its length, whatever follows it |
| Convopb.WiresIgnored | mixnet/convopb/mixnet.pb.go:1419-1434 | well-formed fields whose numbers the message does not have change nothing, wherever they stand |
| Convopb.UnknownIgnored | mixnet/convopb/mixnet.pb.go:1419-1434 | unknown fields between two parts change nothing |
| Convopb.ConcatMerges | mixnet/convopb/mixnet.pb.go:690-2560 | the bytes of two messages, with unknown fields between them, read as their merge |
| Convopb.SkipLocal | mixnet/convopb/mixnet.pb.go:2561-2659 | a field that is skipped has the same length whatever follows it |
| Convopb.MergeZero | mixnet/convopb/mixnet.pb.go:1312-2560 | merging into a zero message gives the other message |
| ConfigChain.VerifyConfigChain | config/config.go:114-150 | the verifier accepts exactly the sequences in which every config may follow the next |
| ConfigChain.VerifyLink | config/config.go:124-147 | one link: the previous hash, all previous guardians, and all guardians whose Ed25519 key is new, with the map of verified keys |
| ConfigChain.FetchAndVerifyChain | config/client.go:86-113 | the client's checks after decoding, in their order; it accepts exactly the chains that pass them all |
| ConfigChain.ChainsAgree | config/client.go:89-112 | two chains accepted for the same two configs have the same signed content position by position, while both run |
| ConfigChain.LongerChainRevisits | config/client.go:89-112 | a chain that runs on after another has ended passes the client's own config again |
| ConfigChain.LinkIsSelfSigned | config/config.go:132-161 | a config that may follow another passes Verify exactly when it gives no guardian that it keeps by Ed25519 key another ML-DSA key |
| ConfigChain.AcceptedNeedNotVerify | config/config.go:132-161 | in every lawful scheme: a config in which a kept guardian has another ML-DSA key, signed with the old one, may follow and does not pass Verify |
| ConfigChain.AcceptedUnverifiedExists | config/config.go:132-161 | such configs exist: any lawful encoding and digest has signature schemes and two valid configs for it |
| ConfigServer.Server.SetCurrentConfig | config/server.go:100-113 | installing a config by hand keeps every chain request answered exactly when the config is a root or its previous hash is stored, and keeps every config following the one before exactly when it does so itself |
| ConfigServer.WalkableIff | config/server.go:100-113 | adding a config to a store that answers every request keeps it so exactly when the config is a root or its previous hash is stored; signatures and times do not matter |
| ConfigServer.DanglingReply | config/server.go:172-180 | the walk from a config whose previous hash is not stored panics at once, or never ends when the hash is its own |
| ConfigServer.DanglingPanics | config/server.go:172-180 | a concrete config that, installed into an empty store, makes chain requests panic |
| ConfigServer.ClosedWalkable | config/server.go:145-186 | in a store in which every config follows the one before, every chain request is answered |
| ConfigServer.Server.NewConfig | config/server.go:39-98 | the next config is taken exactly when it is valid, names the current hash, was created later and is signed as a link; requests that were answered still are, and configs still follow each other |
| ConfigServer.Server.GetChain | config/server.go:145-186 | the chain walk over any store, when it ends: with the configs back to the one the client has or to a root, or in a panic at a previous hash that is not stored |
| ConfigServer.ClosedAnswers | config/server.go:167-180 | in a store in which every config follows the one before, the walk ends within as many steps as there are older configs, with the chain |
| ConfigServer.ChainAcceptedIff | config/client.go:89-112 | a client accepts the server's chain exactly when the config it has is a proper ancestor of the one it wants, and that has not expired |
| ConfigServer.AcceptedIsStored | config/client.go:89-112 | whoever answered, what a client accepts agrees with an honest server's store |
| ConfigServer.Update | config/client.go:68-113 | server and client together: the update succeeds exactly when the wanted config has not expired |
| ConfigServer.RunCloses | config/server.go:39-113 | over every run of configs installed by hand and sent as the next ones, in which only roots are installed, every stored config follows the one before |
| ConfigServer.RunAnswers | config/server.go:39-113 | over every run in which what is installed by hand is a root or names a config that is stored then, every chain request is answered |
| ConfigServer.ChainCompleteOverRun | config/server.go:145-186 | over every run in which only roots are installed by hand: the walk for a stored config ends with a chain, and the client accepts it exactly when its config is a proper ancestor of the wanted one, and that has not expired |
| Keywheel.Wheel.GetSecret | keywheel/keywheel.go:34-48 | the ratchet loop computes the secret of a later round, and nothing for an earlier one |
| Keywheel.Wheel.SessionKey | keywheel/keywheel.go:111-120 | the session key of a round the wheel still has |
| Keywheel.Wheel.OutgoingDialToken | keywheel/keywheel.go:122-131 | the dial token, with the intent cut to 32 bits |
| Keywheel.Wheel.IncomingDialTokens | keywheel/keywheel.go:138-158 | one entry of tokens for each friend whose secret has not passed the round |
| Keywheel.Wheel.EraseKeys | keywheel/keywheel.go:160-172 | every secret moves to the next round unless it is past it, with the 32-bit wrap |
| Keywheel.ErasedQueries | keywheel/keywheel.go:34-48 | after any erasures a query is answered as if nothing had been erased, or it is below the largest erased round |
| Keywheel.ErasuresReach | keywheel/keywheel.go:160-172 | the state after any erasures depends only on the largest erased round below the last one there is |
| Keywheel.ErasureOrder | keywheel/keywheel.go:160-172 | the order and repetition of erasures do not matter |
| Keywheel.ErasedRoundsAreGone | keywheel/keywheel.go:160-172 | no key and no token comes back for a round at or below an erased one, except the last round there is |
| Keywheel.LastRoundIsNotErased | keywheel/keywheel.go:160-172 | erasing the last round changes nothing |
| Keywheel.RunKeeps | keywheel/keywheel.go:67-77 | over every run of putting, removing and erasing, a friend's secret is the one put last, ratcheted past what was erased since |
| Bloom.Hash | bloom/bloom.go:106-119 | the hash loop stays inside its array, and gives the words of SipHash in order |
| Bloom.Filter.Set | bloom/bloom.go:43-49 | exactly the bits of the element are added |
| Bloom.Filter.Test | bloom/bloom.go:51-60 | the test holds exactly when all bits of the element are set |
| Bloom.NoFalseNegatives | bloom/bloom.go:43-60 | a filter of some elements has each of them |
| Bloom.RepresentsOn | bloom/bloom.go:43-49 | after one more element the bits are exactly those of all the elements |
| Bloom.FilterRoundTrip | bloom/bloom.go:70-85 | a filter is read back from its bytes |
| Bloom.Filter.UnmarshalBinary | bloom/bloom.go:78-85 | fewer than four bytes are refused and leave the filter as it was |
| Dialing.MixMessageRoundTrip | dialing/mixer.go:175-186 | the mailbox and the token are read back from the message |
| Dialing.UsernameToMailbox | mailbox.go:40-50 | mailboxes are 1 to the count, and 0 exactly for the empty name; with a count of 0 there is none, where the code divides by zero |
| Dialing.GroupTokens | dialing/mixer.go:127-141 | the groups hold exactly the tokens of well-sized messages by mailbox, in order, without mailbox 0 |
| Dialing.HandleMessages | dialing/mixer.go:114-151 | there is a filter for exactly the mailboxes that messages are for, and its bits are exactly those of their tokens |
| Dialing.TokensForHas | dialing/mixer.go:127-141 | a token is in a mailbox's group exactly when a message brings it |
| Dialing.ErasuresAgree | keywheel/keywheel.go:160-172 | two wheels that got the same secret agree on every round both still have, whatever each has erased |
| Dialing.FriendsAgree | keywheel/keywheel.go:67-172 | two users whose wheels last got the same secret for each other agree after any runs |
| Dialing.CallIsHeard | dialing.go:89-147 | end to end through the chain: a call that is sealed for it, and first with its deduplication key at each hop, is in its mailbox, and is heard by its callee in that round, with the caller's name, the intent modulo 2^32 when that is an intent, and the caller's own session key, whatever else is in the batch |
| Dialing.OwnIntentHeardIff | dialing.go:89-200 | the callee of such a call hears the caller's own intent, with the caller's own session key, exactly when it is at least 0 and below the number of intents |
| Dialing.WrappedIntentIsHeard | friend.go:175-220 | an intent of 2^32 + 1 is heard as 1 and never as itself |
| FriendCalls.LifeIsLastPut | keywheel/keywheel.go:50-65 | a user on the wheel has the secret that was put for it last |
| FriendCalls.FriendsWheelsAgree | addfriend.go:479-513 | after any run of the add-friend protocol, and any erasures since, the wheels of two clients whose last friendship with each other is of one dial round agree |
| FriendCalls.FriendsCallIsHeard | dialing.go:89-200 | from friend request to call: after any run in which two clients made each other friends, a call that the one seals for the chain, first with its deduplication key at each hop, is heard by the other with the caller's name, its own intent and its own session key, exactly when the intent is one of the intents |
| Dialing.DeliveredIsPublished | dialing/mixer.go:114-151 | a delivered token is in the published filter of its mailbox, however the messages are shuffled |
| DialClient.Client.Call | friend.go:110-128 | a call to a friend is queued, a call to anyone else is nothing, and an intent of 3 or more is a panic |
| DialClient.OutgoingCall.UpdateIntent | friend.go:175-183 | the intent changes exactly until the token is made |
| DialClient.OutgoingCall.ComputeKeys | friend.go:187-220 | token and session key are made once, for the round the call is sent in |
| DialClient.Client.Cancel | friend.go:230-248 | a queued call is taken out; one that is gone is too late |
| DialClient.Client.RemoveFriend | friend.go:44-62 | removing a friend forgets its secret and exactly its queued calls |
| DialClient.Client.NextOutgoingCall | dialing.go:149-160 | calls leave the queue in order |
| DialClient.Client.SendDialing | dialing.go:120-139 | the round's message: the first call's token for its callee's mailbox, a dummy without one, and no message exactly when the token is missing or there is a call and no mailbox, where the code panics |
| DialClient.Client.ScanBloomFilter | dialing.go:162-200 | the calls reported are exactly those whose tokens the mailbox's filter has, and then the round is erased; it fails exactly when the filter has hashes but no bits and a token is looked for |
| DialClient.DialingRound | dialing.go:89-200 | caller, last mixer and callee in one round: the call is reported with the caller's own session key |
| DialClient.ShortMailboxReportsAll | dialing.go:178-197 | a mailbox of fewer than four bytes is reported as calls from every friend with every intent |
| PkgRounds.MessageInjective | pkg/server.go:277-301 | a commitments message determines its round and its sorted keys and commitments |
| PkgRounds.Server.Commit | pkg/server.go:162-223 | a commit keeps the keys of a round that is open and deletes the rounds before the one before; one signature per round stays possible exactly unless the commit brings back a signed round; commits in order keep at most two rounds |
| PkgRounds.Server.Reveal | pkg/server.go:245-317 | a round is signed for once, only when its own commitment is listed and all widths are right; later reveals repeat the signature |
| PkgRounds.ListEntries | pkg/server.go:269-299 | the entries are the commitments in ascending order of their keys |
| PkgRounds.Verify | pkg/server.go:321-352 | the client's check recomputes the message from the revealed keys and checks every signature |
| PkgRounds.ClientsAgree | pkg/server.go:321-352 | two clients that verify one round with an honest PKG in common hold the same set of PKGs and the same keys for each |
| PkgRounds.RunSignsOnce | pkg/server.go:162-317 | over every run of commits and reveals whose commit rounds start at 1 and never decrease, the PKG signs at most one message per round and keeps at most two rounds |
| PkgRounds.ClientsAgreeOverRun | pkg/server.go:162-352 | two clients that verify one round agree on the PKGs and their keys, whatever the honest PKG they share did in its run, as long as its commits came in order |
| PkgRounds.HonestSettingsVerify | pkg/server.go:375-420 | settings whose reveals sign the commitments they open verify for the keys they were made for |
| PkgRounds.SignsTwiceIff | pkg/server.go:206-212 | after a commit the server can be made to sign twice for a round exactly when the commit brings back a round that was signed for and deleted |
| PkgRounds.CommitSignsOnce | pkg/server.go:206-212 | a commit keeps the invariant that every unsigned round is unsigned in the log exactly unless it brings back a signed round |
| PkgRounds.CommitStaysRecent | pkg/server.go:206-212 | rounds that start at 1 and never decrease keep the server within the last two rounds |
| PkgRounds.GoingBackSignsTwice | pkg/server.go:162-317 | a run that commits, reveals, commits two rounds on, commits to the first round again and reveals: two messages for one round are signed, and they differ exactly when the commitments do |
| PkgRounds.RoundZeroIsDropped | pkg/server.go:206-212 | committing to round 0 keeps nothing, because the subtraction wraps |
| SortedKeys.AscendingUnique | pkg/server.go:275 | there is one ascending order of a set of keys, so that both sides build one message |
| SortedKeys.SortAscending | pkg/server.go:275 | sorting distinct keys gives their ascending order |
| AddFriendClient.Client.SendFriendRequest | friendrequest.go:23-35 | a request is queued for a coming round |
| AddFriendClient.Client.Approve | friendrequest.go:178-192 | a confirmation for the request's dial round is queued, without its client, and the request stays |
| AddFriendClient.Client.Reject | friendrequest.go:196-214 | the request leaves its queue, or it is too late |
| AddFriendClient.Client.Cancel | friendrequest.go:101-119 | the queued request leaves its queue, or it is too late; a confirmation that Approve made does not know its client, and cancelling it dereferences nil |
| AddFriendClient.Client.SendOnion | addfriend.go:259-305 | sending the next request and matching it to what came in is the protocol step |
| AddFriendClient.Client.Decode | addfriend.go:423-453 | an introduction completes a friendship with the first sent request it matches, or waits |
| AddFriendClient.Client.NewFriend | addfriend.go:479-513 | the shared secret is put on the wheel, and exactly the two requests leave their queues |
| AddFriendClient.Client.MatchToIncoming | addfriend.go:455-465 | the first incoming request of the same user and dial round |
| AddFriendClient.Client.MatchToSent | addfriend.go:467-477 | the first sent request of the same user and dial round |
| AddFriend.FriendsAgree | addfriend.go:289-299 | over every run with lost, late, reordered or repeated introductions, two clients that made each other friends at a dial round put the same secret at it, if each wrote to the other at most once for that round |
| AddFriend.TwoLettersDisagree | addfriend.go:455-477 | in every lawful group, for all keys x, y and z: a run in which a client writes twice for one dial round, with x and y, and the other once, with z, and in which their puts agree exactly when x and y give the same secret with z |
| AddFriend.PutsAgreeIff | addfriend.go:224-513 | over every run in which secrets do not collide and every letter has a key of its own, two puts of two clients for each other at one dial round agree exactly when they were made from the same two letters |
| AddFriend.PutIsMade | addfriend.go:224-513 | over every run, every secret on a wheel is made from a letter of the user's own and one of the friend's, for its dial round |
| AddFriend.CollisionlessExists | addfriend.go:479-492 | there are groups in which secrets do not collide |
| AddFriend.QueuesNeverPair | addfriend.go:423-477 | over every run no incoming and sent request of one user and dial round wait together |
| AddFriend.RunKeeps | addfriend.go:224-513 | every secret on a wheel was made from one letter each way |
| AddFriend.RunKeepsKeys | addfriend.go:479-513 | over every run, waiting introductions and friends have the long-term keys that the users they name really have |
| AddFriend.ExpectedKeyRespectedIff | friendrequest.go:37-45 | over every run, a request that is completed keeps the friend with the expected key exactly when the friend's own key is the expected one, which is settled before the request is made |
| AddFriend.WrongKeyIsKept | friendrequest.go:37-45 | in every group, for every key that is not the friend's: a run in which a client asks for the friend with that key and keeps it with another |
| AddFriendMailbox.HandleMessages | addfriend/mixer.go:142-170 | each mailbox holds exactly the introductions for it, strung together in the shuffled order |
| AddFriendMailbox.SplitMailbox | addfriend.go:382-396 | a mailbox is cut into introductions of one size, or is malformed |
| AddFriendMailbox.CutJoin | addfriend.go:382-396 | cutting what was strung together gives the introductions back in order |
| AddFriendMailbox.ReadMailbox | addfriend.go:366-413 | mixer and client together: a user finds exactly the introductions delivered for it |
| AddFriendMailbox.IntroArrives | addfriend/mixer.go:142-170 | an introduction that is sealed for the chain, and first with its deduplication key at each hop, is in its mailbox |
| Hub.StepKeeps | typesocket/hub.go:52-62 | every step at lock granularity keeps the invariant of locks, flags and channels |
| Hub.ChannelSafety | typesocket/hub.go:130-153 | in every interleaving nothing is sent on a closed channel, no channel is closed twice, and outside the connection's lock the flag says exactly whether the channel is closed |
| Hub.NoDeadlock | typesocket/hub.go:213-239 | while some call has not returned, some thread can go on |
| Hub.QuietHubIsClean | typesocket/hub.go:204-211 | when every call has returned the hub keeps no closed connection |
| Hub.ConnHolderRuns | typesocket/hub.go:130-153 | the holder of a connection's lock never waits |
| Coordinator.Server.BeginIteration | coordinator/server.go:259-277 | the round is announced only after it was written; a failed write ends the loop |
| Coordinator.Server.IncomingOnion | coordinator/server.go:184-198 | an onion is kept exactly when it is for the current round |
| Coordinator.Server.EndIteration | coordinator/server.go:347-350 | the pending onions become the batch of the round, and the list starts anew |
| Coordinator.Server.PersistLocked | coordinator/persist.go:57-72 | the current round reaches the disk or the write fails |
| Coordinator.Server.CrashAndReload | coordinator/persist.go:23-48 | a new process starts from the persisted round without onions |
| Coordinator.AnnouncedIncrease | coordinator/server.go:259-277 | announced rounds strictly increase over every run with failed writes, crashes and reloads in which no iteration begins at the last 32-bit round |
| Coordinator.NextIncreasesIff | coordinator/server.go:259-261 | once something has been announced, the next announcement keeps the order exactly when the counter is below the last 32-bit round |
| Coordinator.RunIncreasesIff | coordinator/server.go:259-277 | over every run that has announced something within the limit, one more announcement keeps the order exactly when it is within the limit too |
| Coordinator.OnionsConserved | coordinator/server.go:184-198 | every accepted onion is in one place of one batch at most, of its own round or a later one |
| Coordinator.ShortRunsStayWithin | coordinator/server.go:259-261 | a run with fewer events than rounds are left never reaches the limit |
| Coordinator.CounterWraps | coordinator/server.go:259-261 | at the limit the counter wraps to 0 |

## Left out

- Real cryptography (onion box, IBE, BLS, Ed25519, ML-DSA, HKDF, SHA, SipHash): uninterpreted functions with laws.
- `onionbox.Seal` is not part of this model; `MixRouting.SealOnion` is the sealing that the mixers' opening inverts. The point on the curve that add-friend noise starts with is random bytes here.
- TLS peer authentication, gRPC, websockets, HTTP, logging and `cmd/*`: transport.
- Goroutines inside one mixer call (decryption workers, parallel loops): their jobs run one after the other, in any order of arrival; the sealing workers run one after the other too, with the slots shared out between them in any way.
- `MixRound.RoundState.CloseRound`: requires a positive reply size of a two-way service, because with empty replies the code does not seal under the slots' own keys, as `OwnKeyIff` says.
- `MixRound.RunRoundBidirectional`: requires a positive reply size, for the same reason.
- `MixRound.RoundState.AddOnions`: does not model the 32-bit wrap of the offset plus the number of onions.
- `MixRound.RoundState.GetOnions`: does not model the 32-bit wrap of the offset plus the count.
- `TomlValues.InsertedIsFound`: table insertion is modelled on values; the code updates shared maps in place.
- `TomlLexer.Lex`: positions count runes, not bytes, and error texts are not modelled.
- `TomlParse.Action`: number and string conversion are parameters, because strconv is not part of this model.
- Decoding the TOML table into Go structs (mapstructure): not part of this model.
- `ConvopbCode.Unmarshal`: a failed read returns the error without the partly filled message, strings are their bytes, nil and empty byte slices are one value, and position plus length is taken not to overflow.
- `ConfigServer.Server.GetChain`: a walk that goes round for ever has no result, so the contract is about walks that end.
- `ConfigServer.Server.NewConfig`: a failed write of the state leaves the new config in memory as here; the response is not modelled.
- `ConfigChain.VerifyLink`: an Ed25519 key of the wrong length, on which the library panics, simply does not verify.
- JSON encodings: taken as injective.
- `DialClient.Client.ScanBloomFilter`: fetching the mailbox is not modelled; what the content server answers for a mailbox that does not exist is read like any other mailbox.
- `Dialing.HandleMessages`: filter sizes are a parameter with at least one byte; the false-positive rate is not modelled.
- Laplace noise sampling: noise counts are arbitrary.
- `AddFriendClient.Client.Decode`: an introduction is taken to decrypt and verify exactly when it was made by the client it names for the client that reads it; the multisignature and the IBE layer are not modelled, and the introduction itself does not name its receiver.
- `AddFriendClient.Client.SendOnion`: the checks of the mixers' signatures before sending are not modelled, and neither is the mailbox of the onion, with its division by zero when there are no mailboxes.
- `PkgRounds.Server.Commit`: the deletion loop runs in the same atomic step as the insertion.
- `PkgRounds.ClientsAgree`: other messages that a PKG signs start with another label, and are left out of its log.
- `Coordinator.Server.CrashAndReload`: the persisted state is loaded only by a new process, and one loop runs at a time.
- `Hub.NoDeadlock`: the select of a send is one step, and reading and writing the socket itself is left out.
- Extraction, registration and the PKG's database, the content server and the hybrid (v2) introductions: easy or dormant next to what is here.
- Overflow on hostile length prefixes and races between handler lock sections: not part of the stated properties.
