# Dormouse: verified models

Dafny models of the parts of Dormouse whose correctness takes reasoning across several functions, or over every
order in which requests, timers and other parties may act, with proofs of what they promise. `dafny verify
dfyconfig.toml` checks them all.

- **A relay room** (`relay_model.dfy`, `relay_room.dfy`, `relay_conversations.dfy`, `relay_theorems.dfy`,
  `relay_alarm.dfy`, `relay_effects.dfy`): one account's Burrow and Client sockets, replaced, bound, silenced, capped, revoked, swept
  and expired. `RelayObject.RelayRoom` holds the object with its attachments copied out and written back; each
  of its methods is proved to make the state `RelayModel.Next` gives, and the theorems are about runs of `Next`.
  A socket's `log` is what its peer was sent, with a Client's own routed `init`s marked in it. An `await` splits
  a method into events, except under `blockConcurrencyWhile`.
- **A one-time room** (`one_time_room.dfy`, `one_time_effects.dfy`): a Burrow and a phone, frames passed as they are.
- **Paths and files read as the kernel and git read them**: `local_path.dfy` (the worklist symlink walk), `link_meaning.dfy`
  (what following a link means, and POSIX paths),
  `git_index.dfy` (the split-index base, with an encoder of the index format), `git_config.dfy` and
  `git_config_writer.dfy` (the config parser, with git's writer).
- **Refunds and settlement** (`refunds.dfy`, `refund_totals.dfy`, `settlement.dfy`, `settlement_states.dfy`,
  `settlement_meaning.dfy`):
  refunds under counted idempotency keys, made by passes that run at once and by hand, and what a settled
  withdrawal is stamped on.
- **The save protocol** (`document_session.dfy`, `document_effects.dfy`, `save_text.dfy`, `editable_file.dfy`): pages with one load and
  one save under way, the server's compare-and-replace, the text round trip, and the replacement itself.
- **Setup tokens and enrollment** (`setup_tokens.dfy`, `token_effects.dfy`, `enrollment.dfy`,
  `enrollment_effects.dfy`): shared tables, each SQL statement or
  locked transaction one step, each request a process.
- **Closure and checkout** (`closure.dfy`, `closure_effects.dfy`) and **price changes** (`price_catalog.dfy`, `price_notices.dfy`).
- **Rate-limit keys** (`ipv6_key.dfy`) and **heading ids** (`heading_ids.dfy`).
- `wrappers.dfy`, `digits.dfy` and `splitting.dfy` are shared.

The modules named for effects or meanings state, in constants, characters and fields rather than in the models' own
helpers, what each operation does on its ordinary input and exactly when it refuses.

Promises that turned out not to hold as made are stated with the input that breaks them and the exact condition
under which they do:

- A Burrow's conversation about a Client can break when a replacement opens between a socket leaving OPEN and
  its close handler (`StrandingHappens`); it stays whole if and only if `Settled` holds when the Burrow is
  admitted (`ReplacementSafeExactlyWhenSettled`), and always when a close is one step.
- The config parser's comment says it decodes as git does, but white space such as a form feed or a no-break
  space inside an unquoted value is read as a space, or dropped at its ends, where git keeps it
  (`FormFeedLost`, `RoundTrip`).
- `refundInFull` is documented to decide "never from a create's answer alone", but answers `refunded` from a
  create that says `succeeded`, which a repeated key may say of a refund that has since failed: a withdrawal can
  be stamped with nothing given back as it stands (`StampedUncovered`). What was given always reached the amount,
  and it stands exactly while no more of it came back than was given beyond (`StampedExactly`).
- Refunds of one payment under two purposes at once can double (`TwoPurposesDouble`); a payment stays within what
  was paid if and only if each new refund fits (`WithinExactlyWhenFitting`).
- A closure slower than its 15-minute hold leaves a payable checkout (`PayablePastHold`).
- `documentSession` itself keeps an edit made during a read if and only if the document was loaded before
  (`EditDuringRead`, `FirstLoadTakesAll`); the pages create their editors with the first load, so theirs always are.

## Model

| member | source | states |
|---|---|---|
| RelayTheorems.RoutingIsSound | hosted/server/relay-room.ts:464-482 | In every run, two-step closes included: at most one registered socket per Burrow; every registered Client's binding names a Burrow with a socket not retired; a Client gets a Burrow's frames, and one `burrow-gone`, only between an `init` of its own routed there and its next unbinding; and its attachment is bound exactly when its record says so |
| RelayTheorems.ConversationsEnd | hosted/server/relay-room.ts:257-285 | In every run in which a close is one step: on each Burrow socket, every later frame and every `client-gone` about a Client follows an `init` not yet reported gone, and a conversation is under way exactly while that Client is registered and bound to that Burrow |
| RelayTheorems.ConversationsKept | hosted/server/relay-room.ts:168-202 | The same grammar in every run whose closes take two steps, when Burrows are admitted only where displacing the old socket leaves nothing bound |
| RelayTheorems.ReplacementSafeExactlyWhenSettled | hosted/server/relay-room.ts:168-202 | From any sound room, admitting a Burrow is safe if and only if no Client that is closing, or stranded by a socket that left first, stays bound to its id: then every next turn keeps every conversation in its grammar, otherwise some next turn breaks one |
| RelayTheorems.StrandingHappens | hosted/server/relay-room.ts:291-300 | A run in which it does break: a Burrow's socket leaves, its successor opens before the close handler runs, and a Client still bound speaks to it |
| RelayTheorems.NextInGrammar | hosted/server/relay-room.ts:242-255 | One turn, whatever it is, puts no record out of its grammar while the conversation invariant holds |
| RelayTheorems.StrandedBreaks | hosted/server/relay-room.ts:257-275 | The turn that breaks a conversation once a fresh Burrow socket finds a Client bound to it: the Client's next frame or its close |
| RelayTheorems.TalkMeaning | hosted/server/relay-room.ts:257-285 | The automaton the invariants use says exactly the grammar, frame by frame |
| RelayTheorems.TieMeaning | hosted/server/relay-room.ts:277-285 | A Client's record that never tears is one in which every Burrow frame came while bound to that Burrow |
| RelayTheorems.RunCapped | hosted/server/relay-room.ts:203-238 | Registered Clients never pass the cap, and no socket the room closed is ever open again |
| RelayTheorems.NextGrows | hosted/server/relay-room.ts:450-487 | A turn sends nothing to a socket that is not registered, takes nothing back, re-registers nothing and never changes why a socket was closed: nothing sent is undone and a teardown is once |
| RelayTheorems.FrameDelivered | hosted/server/relay-room.ts:257-275 | A bound Client's frame reaches the Burrow it is bound to, once, as it was sent, and changes nothing else |
| RelayTheorems.InitDelivered | hosted/server/relay-room.ts:257-275 | An `init` binds its Client, reaches the Burrow it names, tells the Burrow it leaves that it is gone, and no one else anything |
| RelayTheorems.ReplyDelivered | hosted/server/relay-room.ts:277-285 | A Burrow's frame changes exactly the one registered Client it names, and only while that is bound to it |
| RelayConversations.NextKeeps | hosted/server/relay-room.ts:450-487 | Every turn keeps the routing invariant; the conversation invariant too, unless it admits a Burrow over something still bound |
| RelayConversations.NextTight | hosted/server/relay-room.ts:291-300 | With a close one step, every turn keeps it that each conversation under way has its Client bound |
| RelayConversations.BindKeeps | hosted/server/relay-room.ts:264-272 | A rebinding keeps the routing invariant: the Burrow left hears of it, the new binding is anchored |
| RelayConversations.UnregisterTight | hosted/server/relay-room.ts:464-487 | A teardown ends every conversation its socket was in |
| RelayAlarm.AlarmAlwaysSet | hosted/server/relay-room.ts:316-334 | In every run, outside a running alarm: while a socket is registered an alarm is set, no later than each registered Client's expiry and each registered socket's last check + sweep + grace + retry |
| RelayAlarm.HeldOnlyWhileChecked | hosted/server/relay-room.ts:336-421 | With alarms at most `late`, even if every read fails: a registered socket was found live within that bound, one read timeout and twice `late`, and a Client outlives its session by at most the timeout and `late` |
| RelayAlarm.GoneRowHoldsNothing | hosted/server/relay-room.ts:365-415 | With alarms at most `late`, a row gone for the bound, one read timeout and twice `late` has no registered socket, though its close call never arrived |
| RelayAlarm.NextWatched | hosted/server/relay-room.ts:316-334 | Every turn keeps the alarm's invariant, a running alarm's two reads in either order included |
| RelayAlarm.SweptBurrowsJudged | hosted/server/relay-room.ts:365-395 | A read sweep leaves no Burrow it asked about registered and unchecked, though sockets are replaced while it waits |
| RelayObject.RelayRoom.OpenBurrow | hosted/server/relay-room.ts:168-202 | The whole new state, and each refusal: accepted exactly when the row is live, this account's and entitled; 503, 401 or 403 otherwise |
| RelayObject.RelayRoom.OpenClient | hosted/server/relay-room.ts:203-238 | The whole new state; accepted exactly when the session is live and, after retiring silent Clients at the cap, there is room |
| RelayObject.RelayRoom.OnClientFrame | hosted/server/relay-room.ts:257-275 | The whole new state of a Client's frame, from attachments copied at lookup |
| RelayObject.RelayRoom.OnBurrowFrame | hosted/server/relay-room.ts:277-285 | The whole new state of a Burrow's frame |
| RelayObject.RelayRoom.WebSocketMessage | hosted/server/relay-room.ts:242-255 | The whole new state of any message: too large, binary, or text, registered or not |
| RelayObject.RelayRoom.WebSocketClose | hosted/server/relay-room.ts:291-300 | The close handler tears down a socket not retired, and does nothing to another |
| RelayObject.RelayRoom.Teardown | hosted/server/relay-room.ts:464-487 | The teardown written back one copied attachment at a time is the model's, so no write-back undoes a newer one |
| RelayObject.RelayRoom.UnbindClients | hosted/server/relay-room.ts:472-481 | The loop over copies unbinds and tells exactly the Clients bound to the Burrow |
| RelayObject.RelayRoom.RunPass | hosted/server/relay-room.ts:132-160 | A pass over copies taken before any was acted on is the pass over the sockets as they become |
| RelayObject.RelayRoom.AlarmBegins | hosted/server/relay-room.ts:316-322 | An alarm retires expired Clients and asks about exactly what is then held |
| RelayObject.RelayRoom.BurrowsAnswered | hosted/server/relay-room.ts:365-395 | The Burrows' rows judged on the sockets that hold their ids by then, or the unchecked closed |
| RelayObject.RelayRoom.ClientsAnswered | hosted/server/relay-room.ts:336-362 | The Clients' rows judged likewise |
| RelayObject.RelayRoom.AlarmEnds | hosted/server/relay-room.ts:323-334 | The alarm re-armed for the earliest expiry or sweep, or cleared when nothing is held |
| RelayObject.RelayRoom.CloseBurrow | hosted/server/relay-room.ts:124-130 | A removed Burrow's socket retired as revoked |
| RelayObject.RelayRoom.CloseSessions | hosted/server/relay-room.ts:132-138 | The whole new state, and how many Clients of ended sessions were closed |
| RelayObject.RelayRoom.WentSilent | hosted/server/relay-room.ts:493-499 | A socket retired exactly when last heard from over the idle timeout ago |
| RelayEffects.CloseSessionsExactly | hosted/server/relay-room.ts:132-138 | Of the room's own account, a socket is registered after the call if and only if it was before and is not a Client whose session ended, and each one closed is closed as unauthorized; another account's call changes nothing |
| RelayEffects.CloseBurrowExactly | hosted/server/relay-room.ts:124-130 | Likewise exactly the removed Burrow's socket, as revoked |
| RelayEffects.OnlineExactly | hosted/server/relay-room.ts:147-152 | Likewise exactly the Burrows last heard from, or opened, over 90 s ago, as gone silent |
| RelayEffects.NudgedExactly | hosted/server/relay-room.ts:140-145 | Every registered Burrow is sent a passkey nudge and stays; no other socket changes |
| RelayEffects.ListedExactly | hosted/server/relay-room.ts:147-152 | The ids listed are those of the registered Burrows, each once |
| RelayEffects.AlarmBeginExactly | hosted/server/relay-room.ts:316-320 | An alarm closes exactly the Clients whose session has expired, and asks about every socket left |
| RelayEffects.ClientsReadExactly | hosted/server/relay-room.ts:336-356 | Of the sessions asked about, a Client stays, marked checked, if and only if its row is this account's and entitled, and is closed unauthorized otherwise; one not asked about stays |
| RelayEffects.BurrowsReadExactly | hosted/server/relay-room.ts:365-395 | Of the Burrows asked about, one whose row is live stays, is marked checked and nudged; the rest are closed, not entitled or revoked as the row says; any other socket is spared |
| RelayEffects.FailedReadExactly | hosted/server/relay-room.ts:410-414 | A failed read closes exactly the sockets of its role not found live for 70 min, to try again later |
| RelayEffects.AlarmEndExactly | hosted/server/relay-room.ts:323-328 | The next alarm is the earliest registered Client's expiry or an hour after this one began, a minute if a read failed; none if and only if nothing is registered |
| RelayEffects.OpenBurrowExactly | hosted/server/relay-room.ts:168-202 | A Burrow is let in if and only if the room is the account's and its row live: a fresh socket, an alarm within the hour, its old one closed as replaced, every other one left |
| RelayEffects.OpenClientExactly | hosted/server/relay-room.ts:203-238 | A Client is let in if and only if its session is named, unexpired, live and fewer than 64 Clients are held, or are once those silent for over 90 s are not counted; only at the cap are those closed |
| RelayEffects.ClosedExactly | hosted/server/relay-room.ts:291-300 | A close handler unbinds and tells exactly the Clients bound to a Burrow, or tells exactly the Burrow its Client was bound to; of a socket retired already it does nothing |
| RelayEffects.RetireTells | hosted/server/relay-room.ts:450-487 | The same of a socket the room closes itself, for whatever reason |
| RelayEffects.UndeliveredExactly | hosted/server/relay-room.ts:242-260 | A message too large closes its socket; one that is binary, unreadable or of a socket not registered reaches no one else |
| RelayEffects.OfflineExactly | hosted/server/relay-room.ts:261-264 | A frame for a Burrow with no socket here is answered offline, and nothing else changes |
| RelayEffects.SilentBurrowExactly | hosted/server/relay-room.ts:261-264 | A frame for a Burrow silent for over 90 s closes that, tells its Clients, and is answered offline |
| RelayEffects.UnboundExactly | hosted/server/relay-room.ts:273-274 | A later frame of a Client not bound to the live Burrow it names changes nothing |
| RelayEffects.SweptEach | hosted/server/relay-room.ts:132-160 | A pass does to each registered socket what it judges of it as it stood, whatever it did to those before |
| LocalPath.WalkLocal | dor-lib-common/src/local-path.ts:60-94 | On any fixed filesystem the worklist walk answers what prefix-by-prefix resolution answers, path, stats or refusal; each call is on a path whose proper prefixes were all seen to be no link, none follows the reading of a link to another machine, and it ends |
| LocalPath.AlongIsCanonical | dor-lib-common/src/local-path.ts:60-94 | Entering a path's names one by one is resolving its parent and then its last name |
| LocalPath.AlongThen | dor-lib-common/src/local-path.ts:84-87 | Putting a link's target in front of the names still to enter is entering the one and then the other |
| LocalPath.CanonicalLinkFree | dor-lib-common/src/local-path.ts:39-43 | A resolved path has no link on it |
| LocalPath.LinkFreeIsCanonical | dor-lib-common/src/local-path.ts:39-43 | A path with no link on it resolves to itself and spends no link |
| LocalPath.ComponentsOfText | dor-lib-common/src/local-path.ts:151-153 | A path's names come back from its text |
| LinkMeaning.WalkRewrites | dor-lib-common/src/local-path.ts:60-94 | What the walk answers, in terms of links: the first link on the path replaced by what its target names from the link's own directory, again and again, forty times at most; refused where input or target starts with two slashes of either kind; its own `lstat` and stored spelling at the end |
| LinkMeaning.AlongRewrites | dor-lib-common/src/local-path.ts:74-88 | Entering names with a budget of links is rewriting with what is left of it |
| LinkMeaning.LinkStandsForTarget | dor-lib-common/src/local-path.ts:80-88 | Under POSIX rules, a path through dir/name, a link to `target` with no link above it, answers as the path with dir/target in its place, unless that makes one link too many |
| LinkMeaning.RelativeLink | dor-lib-common/src/local-path.ts:80-83 | A link to "../" k times and then names leads k directories up from its own directory and down those names |
| LinkMeaning.AbsoluteLink | dor-lib-common/src/local-path.ts:80-86 | A link to an absolute path leads there, wherever the link is |
| LinkMeaning.RelativeTarget | dor-lib-common/src/local-path.ts:83-83 | What such a relative target names from a directory, past the root included |
| GitIndex.BaseOfEncoded | dor-lib-common/src/git.ts:251-305 | For every index git writes, version 2, 3 or 4, any hash length: an error if and only if some extension is neither "link" nor starts with a byte from 0x41 to 0x5a; else the last "link" extension's object id, none where all its bytes are zero or there is no such extension |
| GitIndex.EncodedReads | dor-lib-common/src/git.ts:257-305 | The walk of an encoded index passes its header, every entry and every extension, and answers from the extensions alone |
| GitIndex.IndexBase | dor-lib-common/src/git.ts:257-305 | On arbitrary bytes: every index read is in range, the walk ends, and it answers the recursive reading |
| GitIndex.EntryEnd | dor-lib-common/src/git.ts:267-286 | One entry's end by its version's rule, on arbitrary bytes |
| GitIndex.ScanExtensions | dor-lib-common/src/git.ts:287-304 | The scan over the extensions, on arbitrary bytes |
| GitIndex.EntryRead | dor-lib-common/src/git.ts:267-286 | An encoded entry is walked to exactly where it ends: padded, or past its varint and name, names of 0xfff bytes and more included |
| GitIndex.EntriesRead | dor-lib-common/src/git.ts:266-286 | All of an index's entries are walked to exactly where its extensions start |
| GitIndex.AnswerMeaning | dor-lib-common/src/git.ts:287-304 | The same of any list of extensions, in their own bytes |
| GitIndex.ExtensionsWere | dor-lib-common/src/git.ts:287-304 | The converse, of any bytes: extensions answered without an error are whole ones that end less than a header before the checksum, and the answer is theirs |
| GitIndex.HeaderRefused | dor-lib-common/src/git.ts:257-262 | Refused as no index exactly when too short or not starting "DIRC"; as of an unread version exactly when that is not 2, 3 or 4 |
| GitIndex.EntryRefused | dor-lib-common/src/git.ts:267-286 | An entry is refused exactly when its fixed part passes the checksum, or only a NUL ends its name and none is there |
| GitConfigWriter.RoundTrip | dor-lib-common/src/git.ts:346-431 | Printing any sections, subsections, keys (letters, digits, "-") and values as git's writer quotes and escapes them, with comments, blank lines and either line ending, and reading that back, gives the same entries, names lowercased, if and only if no unquoted value holds white space other than spaces, tabs and line feeds; with every value quoted it always does. The writer's grammar is its own, in characters |
| GitConfigWriter.FileRead | dor-lib-common/src/git.ts:346-431 | What every printed file reads as, refusals of a key before any section included |
| GitConfigWriter.LineRead | dor-lib-common/src/git.ts:346-392 | What one line adds to the entries after it |
| GitConfigWriter.ValueComesBack | dor-lib-common/src/git.ts:400-431 | A value reads back as it was exactly when it is quoted or free of such white space |
| GitConfigWriter.EverySpelling | dor-lib-common/src/git.ts:400-431 | Every spelling of a value, in quotes, bare or partly each, each character raw or escaped, `\b` included, and continued over lines anywhere, reads as the value |
| GitConfigWriter.FormFeedLost | dor-lib-common/src/git.ts:394-431 | A value with a form feed that git prints bare and the parser reads as another |
| GitConfigWriter.PrintedNormalised | dor-lib-common/src/git.ts:347-347 | CR LF and LF files normalise to the same source |
| GitConfig.GitConfigEntries | dor-lib-common/src/git.ts:346-392 | On any text, the index loops always advance, end, and answer the reading of the text that remains |
| GitConfig.ConfigValue | dor-lib-common/src/git.ts:400-431 | The value loop, spaces counted and restored, quotes, escapes, comments and continued lines |
| GitConfig.SectionName | dor-lib-common/src/git.ts:356-373 | A header's name and subsection, or a refusal |
| GitConfigWriter.UnknownEscape | dor-lib-common/src/git.ts:418-424 | After any spelling, a backslash before a character with no escape refuses the value |
| GitConfigWriter.OpenQuote | dor-lib-common/src/git.ts:406-406 | After any spelling, a quote still open at its line's or file's end refuses it |
| GitConfigWriter.StrayAfterKey | dor-lib-common/src/git.ts:376-387 | A key followed by anything but "=" or its line's end refuses the file |
| GitConfigWriter.StrayInHeader | dor-lib-common/src/git.ts:356-373 | A header with no name, or whose name is followed by anything but its end or a quoted subsection, refuses the file |
| RefundTotals.NeverOverRefunded | hosted/server/withdrawal.ts:185-209 | In every run of any number of passes of one purpose over stale lists: keys used are 0 to m, all but the last refund have failed, and what is pending, awaited and succeeded never passes the amount paid |
| RefundTotals.WithinExactlyWhenFitting | hosted/server/withdrawal.ts:185-209 | In every run of passes of any purposes, and of refunds by hand: a payment is never refunded beyond what was paid if and only if each new refund, when made, repeats its key or finds no more live than its list saw succeed, and each one by hand has room |
| RefundTotals.OnePurposeFits | hosted/server/withdrawal.ts:198-207 | One purpose with none by hand always fits |
| RefundTotals.WholeFits | hosted/server/withdrawal.ts:198-207 | Where every refund is the whole amount, a new one fits exactly when every other has failed |
| RefundTotals.TwoPurposesDouble | hosted/server/withdrawal.ts:171-174 | A run of two purposes that does not fit and refunds twice what was paid: a withdrawal and a closure that listed at once |
| Refunds.RunSound | hosted/server/withdrawal.ts:185-209 | In every run of any purposes and hands: each refund under a key, with what was given before it, gives the whole amount once it succeeds; each list is an earlier one; nothing over is revived |
| RefundTotals.CreateKeeps | hosted/server/withdrawal.ts:198-207 | Of one purpose, a create decided from a stale list repeats a used key, or makes the next refund after ones that have all failed |
| SettlementMeaning.StampedGivenBack | hosted/server/withdrawal.ts:230-286 | Whatever passes of any purpose, hands and Stripe do meanwhile and however requests fail: `settledAt` is stamped only with the subscription ended, every paid invoice taken by Stripe in full, and every payment of it given back in full; a settled row is left alone |
| SettlementMeaning.StampedExactly | hosted/server/withdrawal.ts:282-286 | At the stamp each payment is covered by refunds that stand if and only if no more came back than they gave beyond its amount: always while none that succeeded has failed, and where they gave just the amount only then |
| SettlementMeaning.SettledForGood | hosted/server/withdrawal.ts:273-286 | The same over any attempts, failed and repeated, and ever after |
| SettlementMeaning.RefundedExactly | hosted/server/withdrawal.ts:194-209 | At the answer that a payment is refunded, the same exact condition |
| SettlementMeaning.RefundingGives | hosted/server/withdrawal.ts:185-209 | One payment's answer: refunded only once its whole amount was given; else the list it was decided from showed it uncovered |
| SettlementMeaning.StampedUncovered | hosted/server/withdrawal.ts:201-208 | A run from no refunds in which a withdrawal is stamped with nothing of its payment given back as it stands: its create is answered `succeeded` of a refund that has failed since |
| SettlementMeaning.CoveredByTheLast | hosted/server/withdrawal.ts:185-209 | With one purpose and none by hand, a payment is covered exactly when its last refund stands |
| SettlementMeaning.NothingReturned | hosted/server/withdrawal.ts:195-197 | Nothing came back exactly when every refund that succeeded still does |
| SettlementMeaning.NoneLeft | hosted/server/withdrawal.ts:258-263 | With nothing left to name, every payment of every invoice was given back in full |
| Settlement.Account.RefundInFull | hosted/server/withdrawal.ts:185-209 | Its answer and what it asks of Stripe are those of `Refunding`, any request failing with or without its effect |
| Settlement.Account.RefundInvoice | hosted/server/withdrawal.ts:243-257 | Every payment Stripe took of an invoice is asked about; what Stripe took; and exactly those not refunded named |
| Settlement.Account.RefundPaidInvoices | hosted/server/withdrawal.ts:230-264 | Every payment of the covered invoices is asked about, and the error is that of `RefundedInvoices` over them |
| Settlement.Account.SettleWithdrawal | hosted/server/withdrawal.ts:273-286 | The row and Stripe after an attempt |
| SettlementStates.RefundingExactly | hosted/server/withdrawal.ts:185-209 | Of a payment's answer: it awaits the customer if and only if a refund of it was listed, or its create answered, as requiring action; it awaits Stripe if and only if one was listed pending, or the create answered with another status that has not succeeded; it is refunded if and only if those listed as succeeded cover it or the create succeeded |
| SettlementStates.RefundMade | hosted/server/withdrawal.ts:194-207 | A pass adds one refund, of what the listed leave, under the key that counts those failed or canceled, exactly when it asks, is not refused, and the key has none |
| SettlementStates.PassReports | hosted/server/withdrawal.ts:242-263 | `action` and `waiting` name exactly the payments found so, one by one as each was asked about, and `byHand` exactly what Stripe never took of each invoice; no error if and only if there is none of these |
| SettlementStates.PagesRead | hosted/server/withdrawal.ts:237-245 | A pass comes to its end only over whole lists |
| SettlementStates.FirstRefund | hosted/server/withdrawal.ts:198-209 | The ordinary first refund: the whole amount, under the key that counts none, waited on |
| SettlementStates.RefundedSettles | hosted/server/withdrawal.ts:273-286 | The ordinary settlement of a payment already refunded: stamped, the subscription ended, nothing asked of Stripe |
| DocumentModel.CleanHolds | dor-tools-builtin/viewer/document-session.ts:99-182 | In every run of any pages, saves, loads and outside writers: a page with nothing unsaved holds the contents its revision was read as or written of, and what it shows is so |
| DocumentModel.OnlyOwnOverwritten | dor-tools-builtin/viewer/document-session.ts:123-134 | In every run, a save changes the file only while it is the page's own revision, one it loaded or wrote |
| DocumentModel.EditKept | dor-tools-builtin/viewer/document-session.ts:123-160 | An edit of a loaded document, during a save or a reload's read included, stays in the editor and unsaved through everything but its user's own edits, undo, save or agreement to discard, and a load the page itself begins again unasked |
| DocumentModel.EditDuringRead | dor-tools-builtin/viewer/document-session.ts:142-153 | An edit made while a read is under way is kept, unsaved, if and only if the document was loaded before |
| DocumentModel.FirstLoadTakesAll | dor-tools-builtin/viewer/document-session.ts:142-153 | A run of the session in which it is not: text taken before the first read lands |
| DocumentModel.SecondSaveRefused | dor-tools-builtin/src/editable-file.ts:51-53 | Of two saves over one revision the second changes nothing, unless the first wrote the same bytes |
| DocumentModel.HappenedGood | dor-tools-builtin/viewer/document-session.ts:99-182 | Every event keeps a page's invariant |
| TextDocuments.CleanText | dor-tools-builtin/src/editor-routes.ts:80-99 | For text: that editor's text is what the file reads as, or the file is a save of it over a revision the page had, read back in that revision's line endings |
| DocumentObject.DocumentSession.Write | dor-tools-builtin/viewer/document-session.ts:123-134 | A save begun, or joined, or not needed |
| DocumentObject.DocumentSession.LandSave | dor-tools-builtin/viewer/document-session.ts:127-131 | A save's answer noted: the snapshot's mark becomes the saved one, newer edits stay dirty |
| DocumentObject.DocumentSession.LandLoad | dor-tools-builtin/viewer/document-session.ts:142-154 | A read's answer applied, or refused if the editor, the revision or a save moved since it began |
| DocumentObject.DocumentSession.Load | dor-tools-builtin/viewer/document-session.ts:135-141 | A load begun, joined or asked about |
| DocumentObject.DocumentSession.Report | dor-tools-builtin/viewer/document-session.ts:114-122 | What is shown becomes the state, and only when it differs |
| DocumentEffects.Saves | dor-tools-builtin/viewer/document-session.ts:123-134 | The ordinary save: a page with unsaved contents writes them over the revision it holds, and shows nothing unsaved |
| DocumentEffects.SaveRefused | dor-tools-builtin/viewer/document-session.ts:123-134 | A save of a file that is another by now writes nothing, says so, and leaves the contents unsaved |
| DocumentEffects.EditWhileSaving | dor-tools-builtin/viewer/document-session.ts:127-131 | A save writes what the page held when it began; an edit made meanwhile stays, unsaved |
| DocumentEffects.Loads | dor-tools-builtin/viewer/document-session.ts:135-154 | The ordinary load: the page holds what the file reads as, and shows nothing unsaved |
| DocumentEffects.LoadFails | dor-tools-builtin/viewer/document-session.ts:144-154 | A load of no file, of one that does not read, or that fails keeps all the page has, and says so |
| DocumentEffects.EncodingFails | dor-tools-builtin/viewer/document-session.ts:127-131 | A save whose contents cannot be encoded sends nothing, says so, and leaves them unsaved |
| DocumentEffects.ReloadAsks | dor-tools-builtin/viewer/document-session.ts:135-138 | A reload of unsaved contents asks first, and refused changes nothing |
| DocumentEffects.ReloadTakes | dor-tools-builtin/viewer/document-session.ts:135-154 | Agreed to, the page holds what the file reads as |
| EditableFile.Document.Replace | dor-tools-builtin/src/editable-file.ts:51-91 | The path is moved only once it was read and rechecked to name one file, of the named revision's bytes, that no one wrote in between; what is put aside is the path's file at the move, so that file unless someone wrote after the recheck; no other failure follows a move; an unconfirmed one leaves the new bytes at the path or in the temporary file, and what was moved aside in the backup; with no one else about it succeeds, the path holding the new bytes and nothing left beside it, if and only if the path holds the named revision and neither is over the limit |
| EditableFile.Document.Read | dor-tools-builtin/src/editable-file.ts:28-45 | A read in pieces, others writing between them, answers the bytes the file had from its opening to its end, or refuses |
| EditableFile.Document.Recheck | dor-tools-builtin/src/editable-file.ts:74-78 | The path names the very file read before, unchanged, or the replacement is refused |
| EditableFile.Document.ReadUpTo | dor-tools-builtin/src/editable-file.ts:15-24 | However short each read falls, at most `size + 1` bytes, each as it was when its read came, fewer only at the file's end |
| EditableFile.TakenWhole | dor-tools-builtin/src/editable-file.ts:37-43 | Bytes taken one by one from a file whose time has not moved are the bytes it had |
| EditableFile.SameBetween | dor-tools-builtin/src/editable-file.ts:74-77 | A file found again with its time unchanged was the same at every moment between |
| SaveText.SavedBack | dor-tools-builtin/src/editor-routes.ts:80-99 | Saving back the text that was read leaves a UTF-8 file, byte order mark included, as it was if and only if its line endings are all alike |
| SaveText.SavedReads | dor-tools-builtin/src/editor-routes.ts:91-99 | A saved file reads as its text in the file's line endings, exactly unless that would start an unmarked file with a mark |
| SaveText.EndingsOfBytes | dor-tools-builtin/src/editor-routes.ts:93-94 | Counting line feeds on bytes counts them on characters |
| SaveText.EncodedDecoded | dor-tools-builtin/src/editor-routes.ts:84-84 | A UTF-8 file is spelled one way: encoding what it decodes to gives its bytes |
| SaveText.DecodedEncoded | dor-tools-builtin/src/editor-routes.ts:97-97 | Decoding an encoded text gives the text |
| SaveText.ToCrlfUniform | dor-tools-builtin/src/editor-routes.ts:95-95 | Text made CR LF has no other line feed, and as many as before |
| SaveText.CountEndings | dor-tools-builtin/src/editor-routes.ts:93-94 | The counting loop |
| SaveText.SaveTextOver | dor-tools-builtin/src/editor-routes.ts:91-99 | The bytes a save writes |
| SaveText.SavedBytes | dor-tools-builtin/src/editor-routes.ts:91-99 | A save writes the file's byte order mark, if it had one, and the text in UTF-8: a carriage return before every line feed where more than half of the file's have one, none where not, as it is over a file with no line feed |
| SetupTokens.OncePerToken | hosted/server/relay-api.ts:244-307 | Over every interleaving of finishes, retires, evictions, sweeps and restores: a token registers at most one passkey, and at most one finish is past its claim |
| SetupTokens.PasskeysOfTheirOwner | hosted/server/relay-api.ts:275-293 | Every passkey registered is of the account that owned the Burrow its token was minted by, and no account's passkeys pass the cap |
| SetupTokens.DeadForGood | hosted/server/relay-api.ts:264-275 | A token retired, evicted, swept, or expired with no transaction holding it, never registers afterwards |
| SetupTokens.DeadStays | hosted/server/relay-api.ts:708-718 | No statement revives a dead token or moves any row's expiry; a restore least of all |
| SetupTokens.MintCapped | hosted/server/relay-api.ts:754-793 | A mint leaves its Burrow no more rows than the cap, none expired, the new one among them, and every other Burrow's rows |
| SetupTokens.LatestKept | hosted/server/relay-api.ts:776-780 | Of a Burrow's live tokens, those that expire last are kept |
| SetupTables.RelayTables.ClaimSetupToken | hosted/server/relay-api.ts:685-706 | A claim wins only a live, unclaimed token; an owner not entitled spends it |
| SetupTables.RelayTables.RestoreSetupToken | hosted/server/relay-api.ts:713-718 | A restore only clears the claim of a row still there |
| SetupTables.RelayTables.RetireSetupToken | hosted/server/relay-api.ts:725-741 | A retire deletes only its own account's token, and says whether it was live and entitled |
| SetupTables.RelayTables.Register | hosted/server/relay-api.ts:275-293 | The transaction registers, or answers full or duplicate and changes nothing |
| TokenEffects.CommitExactly | hosted/server/relay-api.ts:275-293 | A registration is made if and only if its account has room and the passkey is new: the passkey is the owner's and the token gone; otherwise nothing changes and the token is to be restored |
| TokenEffects.Finishes | hosted/server/relay-api.ts:244-312 | The ordinary finish of a live token registers its passkey and spends the token |
| TokenEffects.MintKeeps | hosted/server/relay-api.ts:754-793 | A mint keeps exactly one fewer of its Burrow's live tokens than the cap, or all of them if they are fewer |
| TokenEffects.ClaimedAgain | hosted/server/relay-api.ts:313-316 | A finish that fails its check leaves the tables as it found them, so its token can be claimed again |
| Enrollment.OncePerApproval | hosted/server/relay-api.ts:542-662 | Over every interleaving of approvals, polls, expiry and removals: an approval mints at most one Burrow or voice token, its approver's, for its purpose and digits; no account's Burrows pass the cap |
| Enrollment.SpentSound | hosted/server/relay-api.ts:592-632 | Spending an approval keeps every row and mint what it was given as |
| Enrollment.RedeemRemoteSound | hosted/server/relay-api.ts:609-632 | The count stands while its account's lock is held, so the cap does |
| EnrollmentTables.Enrollments.Approve | hosted/server/relay-account.ts:66-82 | A code's first approval, or one in place of an expired one; a live one stays whoever's it is |
| EnrollmentTables.Enrollments.ReadApproval | hosted/server/relay-api.ts:563-589 | A poll's read, which marks wrong digits |
| EnrollmentTables.Enrollments.RedeemVoice | hosted/server/relay-api.ts:590-603 | The statement that spends an approval for a voice token |
| EnrollmentTables.Enrollments.EnrollBurrow | hosted/server/relay-api.ts:606-645 | The locked transaction that counts and spends one for a Burrow |
| EnrollmentEffects.ReadExactly | hosted/server/relay-api.ts:563-589 | A poll goes on, for its approver, if and only if the code's approval is live, of its purpose, unredeemed, of its digits, and the approver is entitled; what each other poll is answered; only other digits leave a mark |
| EnrollmentEffects.Enrolls | hosted/server/relay-api.ts:563-645 | The ordinary enrollment: an entitled user's approval, polled, makes the Burrow theirs |
| EnrollmentEffects.Enables | hosted/server/relay-api.ts:563-603 | And for voice, no Burrow |
| Closure.NothingPayableOnceGone | hosted/server/closure.ts:247-265 | However checkouts interleave with a closure that deletes within its hold, once the account is gone no answered URL can be paid and no paid subscription is left |
| Closure.PayablePastHold | hosted/server/closure.ts:30-34 | At every delay past the hold, a run in which an answered URL can still be paid once the account is gone |
| Closure.NextSound | hosted/server/billing-routes.ts:204-218 | Each step of a checkout or the closure keeps it that nothing answered is payable past the cancel |
| ClosureRoutes.AccountRecord.IsClosing | hosted/server/closure.ts:42-51 | Whether the account is gone or held, read after the session opened |
| ClosureRoutes.AccountRecord.OpenCheckout | hosted/server/billing-routes.ts:196-211 | The open session taken up again, or replaced by a new one |
| ClosureRoutes.AccountRecord.EndSubscriptions | hosted/server/closure.ts:59-73 | Sessions expired, then what was paid ended one request after another, checkouts going on between them: while the hold lasts nothing is left paid or payable |
| ClosureEffects.Checkout | hosted/server/billing-routes.ts:191-218 | The ordinary checkout of an account that stands and no closure holds is answered, and can be paid |
| ClosureEffects.Turned | hosted/server/billing-routes.ts:204-218 | That of an account gone or held is refused, and leaves no session open |
| ClosureEffects.Closes | hosted/server/closure.ts:59-73 | The ordinary closure: the open session expires, the paid one ends, the account goes |
| ClosureEffects.GivesUp | hosted/server/closure.ts:247-265 | A closure that fails leaves the account standing and holds off checkout no longer; where clearing its hold fails too, that stays until it lapses |
| PriceNotices.NoticedBeforeCharged | hosted/server/notices.ts:164-210 | In every run of recording, sending, stamping, applying and renewing on a lagging copy: a renewal charges a Price other than the one bought at only if that change's notice was mailed the least notice before it, no earlier than it may be, and the renewal is on or after the change's date; a founding subscription is never noticed, moved or charged another |
| PriceNotices.UpdateNoticed | hosted/server/notices.ts:183-200 | A subscription is moved only by a notice in time for its next renewal |
| PriceNotices.NeverFounding | hosted/server/notices.ts:261-276 | No notice of a usable change is recorded for a founding subscription |
| PriceCatalog.BuildCatalog | hosted/server/billing.ts:116-143 | The loops build the catalog of the recursive reading |
| PriceCatalog.UsableChanges | hosted/server/billing.ts:116-132 | A usable change names no founding Price, and no Price is two plans' |
| PriceCatalog.CatalogPlans | hosted/server/billing.ts:133-142 | Configured Prices keep their published amounts, and every recognized Price its owner's plan |
| PriceCatalog.CatalogAmounts | hosted/server/billing.ts:133-136 | A Price not configured charges what the earliest usable change that moves to it says, and only without one what the earliest that moves from it says of its old |
| PriceCatalog.EachDecided | hosted/server/billing.ts:124-132 | Each change is acted on or refused |
| PriceCatalog.UsableStays | hosted/server/billing.ts:124-132 | A later change never makes an earlier one usable or not |
| PriceCatalog.UsableExactly | hosted/server/billing.ts:124-132 | A change is acted on if and only if neither of its Prices is configured for another plan or named by a change of another acted on before it; otherwise it is refused |
| PriceNotices.ChargedAsTold | hosted/server/notices.ts:164-210 | The ordinary change: a subscription due it is told, moved, and charged the new Price at the renewal it was told of |
| OneTimeModel.Rendezvous | hosted/server/one-time-room.ts:102-172 | However a room opened once runs: one phone at most; each end has exactly the first of the other's frames since the join, all of them while both are open; what passed is within the bound; an open room has its deadline set |
| OneTimeModel.NothingAfterTheEnd | hosted/server/one-time-room.ts:158-172 | After any ending nothing more is delivered and no one joins |
| OneTimeModel.OnlyInTime | hosted/server/one-time-room.ts:102-116 | A join is taken exactly when the Burrow is open, no phone has joined and the link has not expired |
| OneTimeObject.OneTimeRoom.WebSocketMessage | hosted/server/one-time-room.ts:118-142 | A frame counted, passed, dropped, or ending the room |
| OneTimeObject.OneTimeRoom.Join | hosted/server/one-time-room.ts:102-116 | The join, or the refusal it meets |
| OneTimeObject.OneTimeRoom.Open | hosted/server/one-time-room.ts:78-100 | The room opened with its deadline, or refused |
| OneTimeObject.OneTimeRoom.End | hosted/server/one-time-room.ts:161-172 | Every socket closed and the deadline cleared |
| OneTimeEffects.Rendezvouses | hosted/server/one-time-room.ts:78-172 | The ordinary rendezvous: opened, joined, a frame passed each way, open until the deadline closes both ends |
| IPv6Key.SpellingKey | hosted/server/one-time.ts:115-160 | Every spelling section 2.2 of RFC 4291 allows, case, leading zeros, `::`, dotted tail, has its address's key |
| IPv6Key.KeysShared | hosted/server/one-time.ts:115-130 | Two spellings share a key exactly when both are of one /64 and not mapped, or both map one IPv4 address |
| IPv6Key.MappedKey | hosted/server/one-time.ts:119-127 | A mapped address's key is its IPv4 address's own |
| IPv6Key.SpellingGroups | hosted/server/one-time.ts:139-160 | The groups of a spelling are its address's, without leading zeros |
| IPv6Key.SameKey | hosted/server/one-time.ts:115-130 | The same of addresses |
| IPv6Key.PrefixWritten | hosted/server/one-time.ts:115-130 | 2001:db8:1:2::6 keys as "2001:db8:1:2::/64" |
| IPv6Key.DottedWritten | hosted/server/one-time.ts:119-127 | 203.0.113.9, mapped, keys as "203.0.113.9" |
| HeadingIds.AssignIds | dor-tools-builtin/src/markdown-links.ts:27-36 | Ids are pairwise distinct, each the first of its slug's candidates no earlier heading has |
| HeadingIds.FreshId | dor-tools-builtin/src/markdown-links.ts:31-33 | The suffix search ends, by pigeonhole |
| HeadingIds.Pigeonhole | dor-tools-builtin/src/markdown-links.ts:31-33 | Candidates that are all taken are no more than the ids in use |
| HeadingIds.IdsDetermined | dor-tools-builtin/src/markdown-links.ts:27-36 | The ids are determined, and later headings change none of them |
| HeadingIds.Numbered | dor-tools-builtin/src/markdown-links.ts:27-36 | Three headings of one slug: the slug, then numbered from one |

## Left out

- Relay room: `exceedsRelayFrameBytes`, `readClientFrame` and `readBurrowFrame` come in as an already read message; the cap, timeouts and intervals are constants of `RelayModel`, of which the shared library's are not part of this model.
- Relay room: other turns wait under `blockConcurrencyWhile`, so an upgrade's row read and its accept are one event, which may make an alarm late by a read's timeout; the bounds on a gone row take how late alarms are as a parameter; order among sockets of one tag is the order they were accepted in.
- Relay room: a `send` to a socket that is mid-close is dropped silently, as a socket that is not open hears nothing; a throwing `serializeAttachment` is not modelled.
- One-time room: `#open` awaits its alarm before it accepts; a room opens once, as its id is minted fresh, so nothing interleaves there.
- Local path: the path module (absolute, resolve, join, Windows roots) is a parameter, and a filesystem that changes during the walk is not modelled.
- Git index: the size limit keeps every length far below 2^31, where the source's `& ~7` would wrap, so padding is on unbounded integers; SHA checksums are not checked by the source either.
- Git config: text is scalar values, not UTF-16 units, which no character the parser tests tells apart; `include` and the checks on entries are elsewhere.
- Refunds: Stripe's key retention is unlimited, it is not relied on to refuse a refund beyond what is left, a failed or canceled refund stays so, and a payment is of one invoice and its amount does not change.
- Settlement.Account.RefundPaidInvoices: the invoices and payments Stripe lists are taken as given for the call, and their amounts as Stripe's own; only refunds, and whether each request fails, change under it.
- Save protocol: `rebase`, the host's frame, the queue of `state` posts and the dialog are not modelled; a revision's hash is taken to name its bytes; the server's replacement is one step for the pages, with any of its failures.
- EditableFile.Document.Replace: does not promise that no outside write between the recheck and the move is overwritten, which the source cannot prevent either; every write is taken to advance a file's times; modes and links are left out, and the path's own check is `LocalPath`.
- Text: lone surrogates cannot be written in a Dafny string; LF normalisation of text with CR CR LF leaves a CR LF, as the source does.
- Setup tokens: the registration's cryptography and challenge come in as the check's outcome; a row lock makes statements on its row wait.
- Enrollment: signatures and digits of a device code come in as the code, purpose and digits a poll stands for; a code may mint again once its approval expires and another is given.
- Closure: two closures of one account at once, `endAfterClosure` and the refunds a closure owes (`closureRefunds`) are left out; `cancelCheckout` is taken to expire every open session of its owner, and a session is paid only through an answered URL.
- Price changes: the notice passes are steps over rows, not loops over batches; leases, other kinds of notice, mail text and Stripe's confirmation of a Price are left out; the configured Prices do not change.
- IPv6Key.Key: lower-cases ASCII letters only, as a connecting-address header holds no others.
- Heading ids: the slug of a text, which needs Unicode tables, is a parameter.
- `openCohort`, `disputeAction`, format tables, image header walks, routing, headers, cookies, mail and pages: plumbing, or members too easy to add anything.
