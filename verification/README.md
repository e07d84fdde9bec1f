# iyelld, modelled and proved in Dafny

iyelld is an IRC notification daemon: it keeps one connection to an IRC server,
forwards syslog messages and datagrams to channels, runs hooks such as `quotes`
over pipes, and reloads its INI configuration on SIGHUP. This project models four
parts of it and proves what they are for.

* **Configuration tables** (`Probing`, `FullPath`, `HomeKeys`, `TableSpec`,
  `HashTable`, `TableSearch`, `TableLaws`, `TableRuns`, `TableExtremes`, `TextTable`,
  `TextLaws`, `TextExtremes`, `HookCommands`): open addressing with quadratic probing
  over prime sizes, tombstones, growth, and the string lists on top. The C loops are
  methods of `HashTable.Hash` over an array of records; each is proved equal to an
  operation on the array's value, and those operations are proved to behave as a
  plain map, or as a history of inserted values. `TableSearch` says when each search
  ends, `TableRuns` and `TextLaws` which runs do, and the two modules of extremes show
  that these bounds are the best ones, by runs that build the worst tables.
* **Text protocols** (`CString`, `Framing`, `IrcText`, `HookWire`, `HookPipe`,
  `IniParser`, `Ini`, `IniPrinter`, `IniSyntax`, `IniRoundTrip`, `IniFiles`,
  `IniReread`): strsep and strtok cutting strings in place, the framing of the server
  stream, the pipe protocol between the daemon and a hook, and the INI reader and
  printer on the tables of a configuration, with their round trips. `IrcText` is the
  other end of the connection: how a server reads a text that the bot queues. What
  the bot says is stated by what is heard there.
* **Routing and reload** (`Syslog`, `SyslogTexts`, `Reload`): the four table lookups of
  a syslog message against a scan of all keys, who hears it and how it looks, and the
  JOINs and PARTs of a SIGHUP.
* **The IRC connection** (`Throttle`, `Daemon`, `DaemonRuns`, `StepLaws`, `StepTexts`,
  `ServerLines`, `StrandedOutput`, `Chains`, `RateReached`, `ReadBoundaries`, `Bot`):
  `Daemon` has one step for each libevent callback and the invariant all of them keep;
  the modules after it prove safety, sending rate, draining, shutting down, what sets
  and clears each flag and timer, what the lines of the server ask for, what output is
  left waiting, and independence of read boundaries, over single callbacks and whole
  runs; `Bot` is the C code itself, fields updated in place, each callback proved to be
  its step, and the event loop proved to be a run.

`dafny verify dfyconfig.toml` checks everything.

How the outside is modelled: the result of a send or receive, the clock, whether
`event_once` succeeds, and the outcome of a connection attempt are parameters of the
step that asks for them. `ev_irc` is a pair of flags (in the queue, waits for
EV_WRITE); pending one-shot timers are counted by kind. The texts that handlers
queue in answer to the server differ with the configuration, the clock and what was
asked before; they are arbitrary, one for each line of each read. The login lines
and the JOIN of all channels are parameters too. Strings are sequences of bytes,
`None` stands for NULL, and 32-bit arithmetic is written out.

## What the proofs found

* Hash probes: although the 32-bit sum of hash_add and hash_get wraps, in the first
  24 of the 26 sizes every path visits every slot, and in the other two every path
  misses one (`TableSearch.SlotsProbed`), but visits at least 2^29 of them
  (`FullPath.PathSize`). So hash_add always ends in every size but the largest
  (`TableExtremes.AddAlwaysEnds`), where a run of adds builds a table with free slots
  in which it does not (`TableExtremes.AddHangs`). In the first 24 sizes a lookup ends
  if and only if its key is held or some slot was never used.
* The slot of a removed key never stops a lookup again. After as many keys as a new
  table has slots have come and gone, one at a time, the table is empty and every
  lookup in it goes on for ever (`TableExtremes.EmptyTableHangs`), and so does every
  hash_text_insert (`TextExtremes.InsertHangs`). With fewer adds no run from a new
  table of the first 24 sizes ever hangs (`TableExtremes.RunsEndExactly`).
* The number of probes: in a table of a prime size p, for a key whose 32-bit sum does
  not wrap in the first half of its path, fewer than (p+1)/2 busy slots mean at most
  (p+1)/2 probes, and from (p+1)/2 on some busy slots keep a path until the wrap
  (`Probing.ProbeBoundExact`). A key whose sum wraps earlier has no such bound: at
  most 22 records in 53 slots hold the add of "daqpvua" for more than 27 probes
  (`TableExtremes.BoundNeedsNoWrap`). Nor does the 0.65 load test give it:
  `TableExtremes.LoadTestDoesNotBoundProbes` has runs of adds, for every size up to
  98317 and every count from half of it, after which one more add makes over 65000
  probes.
* hash_add does not look for its key, so adding a present key breaks the map:
  `TableLaws.DuplicateBreaksTheMap` says when, both ways.
* `conf_ini_save` writes the [hooks] and [transmit] headers two characters short. A
  saved configuration reads back if and only if both sections are empty
  (`IniRoundTrip.FileRoundTrip` for the text, `IniFiles.FileBack` for the tables;
  `IniRoundTrip.HookLost` loses a hook). Everything that was read from a file can be
  saved this way, up to 127 values for a key and the length of a line
  (`IniReread.RereadIsTheSame`).
* For a value of blanks only the length in `conf_ini_check_parameter` goes below 0 and
  the trimming loop runs backwards. It stops at the separator in front of the value,
  which becomes an empty string (`IniParser.TrimAt`).
* A message keeps its sender if and only if no colon is in it: `irc_switch` cuts the
  line at blanks and colons alike, so what somebody with an IPv6 host says is not
  taken for a message from them (`ServerLines.SenderKnown`).
* A request to a hook keeps its fields if and only if neither the sender's mask nor
  the channel holds a colon (`HookWire.ColonInMask` is one that does not; the senders
  that `irc_switch` finds never hold one, `ServerLines.SendersHaveNoColon`). Requests
  that the hook reads at once are all carried out as meant if and only if none
  without arguments comes after one with some (`HookPipe.PipeRoundTrip`).
* Changing only the key of a channel in the configuration makes the bot join the
  channel and then part it, whatever the channel and the keys
  (`Reload.KeyChangeParts`); `Reload.ReloadReachesChannels` gives the exact condition.
* A coloured syslog message reads like the plain one if and only if its tag does not
  start with a digit, which a client takes for a part of the colour code in front of
  it (`SyslogTexts.ColorsAreDecoration`).
* A reload that changes the nick clears NICKUSED but leaves the timer that goes with
  it, so the next 433 sets another one (`StepLaws.StepIsLawful` has every flag and
  timer).
* The comment at `src/iyelld/network.c:215-216` promises bursts of three lines and
  one line a second. The code sends up to 5 + 5T/4 lines in T seconds, and for every T
  there are runs that do (`DaemonRuns.WindowRate`, `RateReached.RateIsReached`).
* Login lines, nick changes, rejoins, reloads and some replies of hooks are queued
  without asking for a write, and so is what an unthrottled write after a timeout does
  not get out. They wait until something else asks
  (`StrandedOutput.WhatStrandsOutput` lists exactly these callbacks).
* The account 4*sent <= 4*(burst change) + 5*(clock change) holds for every call that
  ends normally. A call that fails before sending keeps it if and only if no reset of
  the counter was due or at least as many lines wait as the counter held
  (`Throttle.FailedAccountExact`, and `Throttle.AbortedAccountExact` for a last call
  that sends); `Throttle.FailedCallBreaksSimpleAccount` is an input that breaks it.
  The rate is proved with a budget that knows the time.
* The comment at `src/iyelld/hooks.c:592` says that data from a hook is dropped when
  the bot is not connected. The code queues it all the same, unless the line holds no
  reply at all, and only does not force it out (`Daemon.HookDataIsQueued`,
  `Daemon.QueuedWhileDisconnected`).

## Model

| member | source | states |
|---|---|---|
| Probing.WrappedCounter | src/iyelld/hash.c:113-119 | squaring a counter that wrapped at 32 bits examines the same slot as the unbounded number of collisions |
| Probing.NextProbe | src/iyelld/hash.c:113-119 | one more increment of the 32-bit counter examines the slot of the next collision |
| Probing.ProductNotDivisible | src/iyelld/hash.c:9-15 | Euclid's lemma for the table sizes: a prime divides no product of two smaller numbers |
| Probing.OffsetsDistinct | src/iyelld/hash.c:113-119 | two different offsets below half of a prime size examine different slots while the sum does not wrap |
| Probing.PathSlotsSize | src/iyelld/hash.c:113-119 | in a table of a prime size, while the 32-bit sum does not wrap, the first n <= (p+1)/2 probes examine n different slots |
| Probing.Coverage | src/iyelld/hash.c:113-119 | if the sum does not wrap in the first half of the path of a prime size, fewer than (p+1)/2 busy slots leave a free one among the first (p+1)/2 probes |
| Probing.PathRepeats | src/iyelld/hash.c:113-119 | before the sum wraps no probe leaves the slots of the first half of the path |
| Probing.Trap | src/iyelld/hash.c:113-119 | for every count from (p+1)/2 on there is a set of busy slots that catches a whole path before the wrap |
| Probing.ProbeBoundExact | src/iyelld/hash.c:113-119 | with n busy slots every search ends before the wrap if and only if n < (p+1)/2 |
| FullPath.OddRoot | src/iyelld/hash.c:113-119 | every number that is 1 modulo 8 is an odd square modulo every power of two |
| FullPath.EverySlotProbed | src/iyelld/hash.c:113-119 | in every table of an odd size up to 2^29, prime or not, the wrapped path of every hash visits every slot |
| FullPath.PathReaches | src/iyelld/hash.c:113-119 | no set of fewer than min(size, 2^29) slots holds a whole path of a table of odd size |
| FullPath.SlotNeverProbed | src/iyelld/hash.c:113-119 | in a table with more slots than there are squares modulo 2^32 the path of every hash misses one |
| FullPath.PathSize | src/iyelld/hash.c:113-119 | every path visits at least min(size, 2^29) slots and at most as many as there are squares modulo 2^32 |
| Probing.PrimeByTrialDivision | src/iyelld/hash.c:11-15 | no divisor below d with d*d > n makes n prime |
| TableSearch.SmallSizesArePrime | src/iyelld/hash.c:11-15 | the twelve sizes up to 98317, all those whose half path cannot wrap by itself, are prime |
| TableSpec.FilledKeepsChain | src/iyelld/hash.c:110-125 | filling the first slot without a key, tombstone or not, keeps every live record reachable on its own probe path |
| TableSpec.FilledEntries | src/iyelld/hash.c:119-125 | it adds exactly that binding and touches no other |
| TableSpec.LookupFindsHeldKeys | src/iyelld/hash.c:138-151 | a lookup ends for every key that is held and finds a slot if and only if the key is held |
| TableSpec.ErasedKeepsChain | src/iyelld/hash.c:170-174 | clearing a key but keeping its hash word keeps every other record reachable |
| TableSpec.ErasedEntries | src/iyelld/hash.c:170-174 | it takes away exactly the binding of the slot |
| TableSpec.RehashKeepsBindings | src/iyelld/hash.c:47-52 | rehashing gives a table in order with exactly the old bindings |
| TableSpec.RehashHasNoTombstones | src/iyelld/hash.c:47-52 | every used slot of a rehashed table holds a key |
| TableSpec.RegrownOk | src/iyelld/hash.c:31-57 | growth at the load threshold keeps bindings and count, drops tombstones and ends under the threshold |
| TableSpec.OnlyLargestOverflows | src/iyelld/hash.c:40 | more records than 0.65 of the largest size means just: overloaded with no size left |
| TableSpec.AddedConserves | src/iyelld/hash.c:97-128 | hash_add adds one binding or nothing; it returns -2 only for a missing or empty key and -1 only in an overloaded largest table |
| TableSpec.RemovedConserves | src/iyelld/hash.c:154-181 | hash_remove takes away one binding of the key and returns its value, or changes nothing if the key is not held |
| TableSearch.SlotsProbed | src/iyelld/hash.c:11-15 | every path visits every slot if and only if the size is one of the first 24 |
| TableSearch.FreeSlotFound | src/iyelld/hash.c:110-119 | the search of hash_add ends if and only if some slot has no key |
| TableSearch.LookupEnds | src/iyelld/hash.c:138-151 | the search of hash_get and hash_remove ends if and only if the key is held or some slot was never used |
| TableSearch.RehashEnds | src/iyelld/hash.c:49-52 | the rehash loop ends for any bindings that are not more than the slots of a path |
| TableSearch.AddEnds | src/iyelld/hash.c:97-128 | hash_add ends for every key, growth and rehash included, in every table that is not of the largest size, and in the largest below 2^29 records |
| HomeKeys.EveryWordIsAHash | src/iyelld/hash.c:60-67 | every 32-bit word but 0 is the hash of some key of seven characters |
| HomeKeys.ZeroBecomesOne | src/iyelld/hash.c:60-67 | a key whose sum comes to 0 hashes to 1 |
| HomeKeys.KnownHashes | src/iyelld/hash.c:60-67 | two hashes worked out by hand, one of them of a byte that counts as negative |
| HomeKeys.HomeOfKey | src/iyelld/hash.c:113-119 | every slot of every table is the first slot on the path of some key |
| HashTable.StrHash | src/iyelld/hash.c:60-67 | the loop computes the 32-bit hash with signed characters, 0 replaced by 1 |
| HashTable.FindFree | src/iyelld/hash.c:113-119 | the probe loop ends at the first slot without a key on the path |
| HashTable.FindKey | src/iyelld/hash.c:138-151 | the probe loop ends at the slot of the key or at a slot never used |
| HashTable.Hash.constructor | src/iyelld/hash.c:70-89 | an empty table of the smallest size over capacity/0.65 |
| HashTable.Hash.Add | src/iyelld/hash.c:97-128 | new records, count, size and return code are those of the specified add, growth included |
| HashTable.Hash.Place | src/iyelld/hash.c:110-127 | the record goes to the first slot without a key and is counted |
| HashTable.Hash.Grow | src/iyelld/hash.c:31-57 | the next size with all bindings added again, or -1 and no change |
| HashTable.Hash.Refill | src/iyelld/hash.c:49-52 | the loop re-adds every live old record in slot order |
| HashTable.Hash.Get | src/iyelld/hash.c:130-152 | the value of the slot a lookup ends in, or NULL |
| HashTable.Hash.Remove | src/iyelld/hash.c:154-181 | new records, count and returned value are those of the specified removal |
| HashTable.Hash.Scan | src/iyelld/hash+.c:169-179 | the walk that counts live records stays in the array, ends, and visits each live record once, in slot order |
| HashTable.ProgressOk | src/iyelld/hash.c:49-52 | half-way through a rehash the new table is in order and under its threshold, so hash_add never enters hash_grow again |
| HashTable.ProgressStep | src/iyelld/hash.c:49-52 | one round of the rehash loop is one add to the new table, which ends |
| HashTable.EntriesRest | src/iyelld/hash+.c:170-179 | once all live records have been counted the rest of the array has none |
| TableSearch.LiveSlotsCounted | src/iyelld/hash.c:121-125 | the number of live records is the number of slots with a key |
| TableSearch.FreeSlotNear | src/iyelld/hash.c:110-119 | in a prime size, for a key whose sum does not wrap in the first half of its path, hash_add makes at most (size+1)/2 probes while fewer than (size+1)/2 records are live |
| TableSearch.LookupStopsNear | src/iyelld/hash.c:138-151 | under the same two conditions hash_get and hash_remove make as many while fewer than (size+1)/2 slots were ever used |
| TableLaws.AddRefinesMap | src/iyelld/hash.c:97-128 | adding an absent key is map insertion, with the same return codes |
| TableLaws.GetRefinesMap | src/iyelld/hash.c:130-152 | hash_get is map lookup |
| TableLaws.RemoveRefinesMap | src/iyelld/hash.c:154-181 | hash_remove is map removal and returns the old value |
| TableLaws.DuplicateBreaksTheMap | src/iyelld/hash.c:97-128 | after a successful add the table stands for some map if and only if the key was absent |
| TableRuns.RunRefinesMap | src/iyelld/hash.c:97-181 | a run of adds of absent keys, removals and lookups, whenever it ends, answers exactly as a plain map |
| TableRuns.OpEnds | src/iyelld/hash.c:97-181 | one operation ends if and only if it is an add, its key is held, or some slot was never used |
| TableRuns.RunEnds | src/iyelld/hash.c:97-181 | up to 2^29 bindings a run ends if the slots of a path outnumber those used and its adds together, or if it removes nothing and nothing was removed before |
| TableRuns.TableIsAMap | src/iyelld/hash.c:97-181 | so every such run ends and answers exactly as a plain map |
| TableRuns.FreshTableIsAMap | src/iyelld/hash.c:70-181 | a new table of any size answers as a map over every run without removals, and over every run with fewer adds than slots, up to 2^29 adds |
| TableRuns.RunWithoutGrowth | src/iyelld/hash.c:104-107 | a run whose adds fit under the load test never changes the size |
| TableRuns.TakesItsCapacity | src/iyelld/hash.c:70-89 | a table made for c keys, for every c the sizes allow, takes any c + 1 distinct ones without growing or failing, whenever the searches end |
| TableRuns.NewTableTakesItsCapacity | src/iyelld/hash.c:70-89 | and below 2^29 keys they do end |
| TableExtremes.EmptyTableHangs | src/iyelld/hash.c:138-181 | for every size: as many keys as a new table has slots come and go; the table is empty, every lookup in it goes on for ever, and an add still ends |
| TableExtremes.RunsEndExactly | src/iyelld/hash.c:97-181 | all runs with at most n adds from a new table of one of the first 24 sizes end if and only if n is less than its slots |
| TableExtremes.CrowdArrives | src/iyelld/hash.c:97-128 | every table whose keys sit in their home slots, up to the load test, is built by a run of adds |
| TableExtremes.FreeSlotExact | src/iyelld/hash.c:110-119 | with n records the search of hash_add for a hash ends in all tables of a size if and only if its path has more than n slots |
| TableExtremes.AddHangs | src/iyelld/hash.c:97-128 | for every key a run of adds, under the growth threshold of the largest size, after which adding that key never ends although slots are free |
| TableExtremes.AddAlwaysEnds | src/iyelld/hash.c:97-128 | hash_add ends for all keys in all tables of a size if and only if the size is not the largest |
| TableExtremes.LoadTestDoesNotBoundProbes | src/iyelld/hash.c:104-119 | for every size up to 98317 and every count from half of it to the growth threshold, a run of adds after which the add of one more key makes over 65000 probes |
| TableExtremes.BoundNeedsNoWrap | src/iyelld/hash.c:113-119 | a key whose sum wraps early: at most 22 records in 53 slots, put there by adds, hold its add for more than 27 probes |
| TextTable.RoomForRemoved | src/iyelld/hash+.c:108-111 | a removed record leaves room for itself: adding its key again cannot grow, fail or run on |
| TextTable.FindRecord | src/iyelld/hash+.c:97-106 | the scan for the stored key stays in the array and finds it |
| TextTable.CountData | src/iyelld/hash+.c:215-230 | the length of the key's list, 0 without table or key |
| TextTable.GetFirst | src/iyelld/hash+.c:237-247 | the first element of the key's list, NULL without one |
| TextTable.Insert | src/iyelld/hash+.c:57-115 | a list of one for a new key, the list with the value behind it for a held one |
| TextTable.Replace | src/iyelld/hash+.c:97-112 | the held record is removed and added again with the longer list |
| TextTable.Delete | src/iyelld/hash+.c:121-152 | deleting a held key removes its record |
| TextLaws.AppendRefines | src/iyelld/hash+.c:86-112 | appending to a held key succeeds, keeps size and count, and extends that list only |
| TextLaws.FirstInsertRefines | src/iyelld/hash+.c:72-85 | the first insert of a key makes a list of one, or fails exactly where hash_add fails and changes nothing |
| TextLaws.DeleteRefines | src/iyelld/hash+.c:121-152 | deletion removes one key and leaves the other lists alone |
| TextLaws.TextRunRefines | src/iyelld/hash+.c:57-152 | a run of inserts and deletions, whenever it ends, is the same run on a map of lists |
| TextLaws.MultiRunIsHistory | src/iyelld/hash+.c:57-152 | in that map a key's list is what was inserted after its last deletion, oldest first |
| TextLaws.TextRunEnds | src/iyelld/hash+.c:57-152 | no function of a run hangs, however long the lists grow, if the slots of a path outnumber those used and the new keys together, or if the run only inserts and nothing was deleted before |
| TextLaws.TableKeepsHistory | src/iyelld/hash+.c:57-152 | after any such run on an empty table a lookup ends and returns exactly the history of the key |
| TextLaws.AppendUsesNoSlot | src/iyelld/hash+.c:108-111 | removing and re-adding a record takes no slot that was never used |
| TextExtremes.InsertHangs | src/iyelld/hash+.c:57-152 | for every size: as many keys as a new table has slots are inserted and deleted, and after that no key can be inserted |
| TextExtremes.TextRunsEndExactly | src/iyelld/hash+.c:57-152 | all runs that delete only what is there and insert at most n new keys end if and only if n is less than the slots of the new table, for the first 24 sizes |
| HookCommands.IsTrue | src/iyelld/hash+.c:277-289 | whether the first value is one of the four spellings of true |
| HookCommands.IsFalse | src/iyelld/hash+.c:256-268 | whether the first value is one of the four spellings of false |
| HookCommands.SwitchWords | src/iyelld/hash+.c:256-289 | the eight words that do not name a hook |
| HookCommands.LooksLikeHook | src/iyelld/cmd.c:196-200 | the test on a live record: the command's own key, with a value that is no switch |
| HookCommands.SearchHooks | src/iyelld/cmd.c:183-203 | the walk over all records hands a command to its hook exactly once if its key names one, and never otherwise |
| CString.StrSep | src/missing/strsep.c:53-78 | the string is cut at its first delimiter, in place; the token is the part before it and the rest the part behind it, NULL when there is none |
| CString.StrTok | src/iyelld/cmd.c:120-128 | one call of strtok_r cuts off the next token of the string, or finds none |
| CString.SkipRun | src/quotes/cmd.c:407-408 | the pointer moves past a run of blanks |
| CString.SkipWord | src/quotes/cmd.c:410-411 | the pointer moves to the end of a word |
| CString.SplitToken | src/missing/strsep.c:53-78 | a clean token in front of a delimiter is what is cut off |
| Framing.Evbuffer.Readline | src/iyelld/irc.c:75 | a line ends at CR or LF and swallows one differing partner; an unfinished line stays |
| Framing.ReadLineScan | src/iyelld/irc.c:75-116 | one readline accounts for its line and its terminator in a character scan of the stream |
| Framing.ParseAllScan | src/iyelld/irc.c:75-116 | the non-empty lines taken out of a buffer are those of the scan, and what is left is its unfinished line |
| Framing.FeedAllScan | src/iyelld/network.c:150-151 | the same for a stream that arrives in pieces |
| Framing.ChunkIndependence | src/iyelld/network.c:150-151 | two fragmentations of one stream give the same non-empty lines and leave the same unfinished line |
| IrcText.MessageHeard | src/iyelld/irc.c:441-448 | a PRIVMSG is heard as one message with its target and its text if and only if the target is one word and no line end is in either |
| IrcText.VerbHeard | src/iyelld/irc.c:349-361 | a NICK, JOIN or PART is heard as it is meant if and only if no line end is in its argument |
| IrcText.HeardConcat | src/iyelld/irc.c:587-591 | texts queued one after the other are heard one after the other |
| HookWire.BuildArgs | src/iyelld/cmd.c:112-132 | the first 127 tokens of the string, as pointers into it |
| HookWire.Send | src/iyelld/hooks.c:679-697 | who:where:words is appended to the pipe as one line |
| HookWire.SplitTwice | src/quotes/cmd.c:388-399 | the loop cuts the line at its first two colons |
| HookWire.CmdParse | src/quotes/cmd.c:386-425 | one line cut up in place: its fields, or "crap from bot" |
| HookWire.HooksParseCmd | src/iyelld/hooks.c:506-566 | return code and text queued for the server are those of the specified parser, whose texts are pinned by what the server hears (`HookWire.ReplyRoundTrip`, `HookWire.RawReply`) |
| HookWire.TokensAreClean | src/iyelld/cmd.c:112-132 | tokens are non-empty and hold no blank, tab or line end |
| HookWire.RequestRoundTrip | src/iyelld/hooks.c:679-697 | the hook parses what the daemon sent into who, where, argv[1] and argv[2..] joined by blanks, if and only if who and where hold no colon and are not both empty |
| HookPipe.CmdParseAll | src/quotes/cmd.c:375-436 | the loop over the finished lines of one read, with the args pointer kept from line to line; the unfinished line stays |
| HookPipe.PipeLines | src/quotes/cmd.c:375-436 | requests written one after the other are read as the lines they were written as |
| HookPipe.PipeRoundTrip | src/quotes/cmd.c:375-436 | requests read at once are all carried out as meant if and only if none without arguments comes after one with some |
| HookWire.ColonInMask | src/quotes/cmd.c:388-399 | a mask with a colon: the hook gets another nick, no channel and another command |
| HookWire.RequestIsOneLine | src/iyelld/hooks.c:679-697 | a request arrives as one line |
| HookWire.ReplyRoundTrip | src/iyelld/hooks.c:506-566 | for every nick, host, channel and text: an empty text is refused; otherwise the server hears one message, to the nick if no channel is named and else to the channel, with the nick and a colon in front of the text if both are, if and only if the place is one word and no line end is in nick or text |
| HookWire.RawReply | src/iyelld/hooks.c:514-521 | a line that starts with byte 1 queues the rest of it as it is; it is accepted if that is not empty |
| HookWire.OnlyNoReplyQueuesNothing | src/iyelld/hooks.c:506-566 | hooks_parse_cmd queues nothing exactly for a line without a reply |
| HookWire.NamedReply | src/iyelld/hooks.c:506-566 | a reply that names nick and channel goes to the channel with the nick in front |
| HookWire.Conversation | src/iyelld/hooks.c:506-566 | request, parse, reply and routing in a row: the server hears the answer said where the request came from, under the same condition |
| IniParser.TrimAt | src/iyelld/conf_ini.c:138-145 | a field is trimmed at both ends in place, blanks only included |
| IniParser.TrimBack | src/iyelld/conf_ini.c:142-145 | for a field of blanks only the loop runs backwards over them and stops at the separator in front: the field is empty, nothing else changes |
| IniParser.TrimTail | src/iyelld/conf_ini.c:142-145 | the loop over trailing blanks keeps at least one character |
| IniParser.NextValue | src/iyelld/conf_ini.c:130-147 | one round of the splitting loop: the next token, trimmed |
| IniParser.SplitFields | src/iyelld/conf_ini.c:128-149 | pointers to at most 127 trimmed fields, in order |
| IniParser.Parse | src/iyelld/conf_ini.c:108-155 | key and values of a line, or nothing for a line without them |
| Ini.CheckParameter | src/iyelld/conf_ini.c:108-161 | a line inserts its values under its key in the section's table, in order, or changes nothing |
| Ini.InsertValues | src/iyelld/conf_ini.c:157-160 | one hash_text_insert for each value |
| Ini.InsertAllAppends | src/iyelld/conf_ini.c:157-160 | a key met again gets its new values behind the old ones |
| Ini.ParameterEnds | src/iyelld/conf_ini.c:157-160 | all inserts of a line end in a table nothing was deleted from, whatever is in it |
| Ini.FgetsStops | src/iyelld/conf_ini.c:59 | one read stops behind a line end, at the end of the file, or after 4095 characters |
| Ini.AddLine | src/iyelld/conf_ini.c:108-161 | after a line the table lists what it did, with the values of the line behind those of its key |
| Ini.CheckSection | src/iyelld/conf_ini.c:168-185 | the section a header names, 0 for an unknown one |
| Ini.AddToSection | src/iyelld/conf_ini.c:70-91 | the line goes into the table of its section, the other four stay as they are |
| Ini.TakeLine | src/iyelld/conf_ini.c:60-96 | one round of the loop: a comment, a header or a parameter of the current section |
| Ini.ReadIni | src/iyelld/conf_ini.c:53-99 | after a whole file the five tables list exactly what its lines add to what they listed before |
| Ini.NewSubsections | src/iyelld/conf.c:124-146 | four separate empty tables |
| Ini.InitConf | src/iyelld/conf.c:114-149 | five separate empty tables |
| IniPrinter.SaveValues | src/iyelld/conf_ini.c:236-240 | the values joined by a comma and a blank |
| IniPrinter.SaveSection | src/iyelld/conf_ini.c:220-246 | one line for each live record, in slot order, and -1 without a table |
| IniPrinter.TokensOfJoined | src/iyelld/conf_ini.c:234-241 | the printed values are the tokens the parser finds |
| IniPrinter.PrintedLineParses | src/iyelld/conf_ini.c:220-246 | a printed line parses into its key and the first 127 of its values, empty ones included |
| IniSyntax.CommentLine | src/iyelld/conf_ini.c:60-64 | lines that start with one of four characters change nothing |
| IniSyntax.CommentCut | src/iyelld/conf_ini.c:118-119 | what follows a semicolon is ignored |
| IniSyntax.AnySeparator | src/iyelld/conf_ini.c:108-155 | any of three characters ends the key and any of five separates two values |
| IniSyntax.PrintedExample | src/iyelld/conf_ini.c:234-241 | a line as it is printed |
| IniRoundTrip.ReadSection | src/iyelld/conf_ini.c:53-99 | a printed section read into an empty one gives its map of lists |
| IniRoundTrip.TableSectionReadsBack | src/iyelld/conf_ini.c:220-246 | the text printed from a table stands for the lists of that table |
| IniRoundTrip.ShortHeader | src/iyelld/conf_ini.c:206-213 | a header written too short swallows the first line of its section and drops the rest unless that line closes it |
| IniRoundTrip.SavedFile | src/iyelld/conf_ini.c:192-218 | what a saved configuration reads back as, section by section |
| IniRoundTrip.FileRoundTrip | src/iyelld/conf_ini.c:192-218 | a saved file reads back unchanged if and only if its hooks and transmit sections are empty |
| IniRoundTrip.HookLost | src/iyelld/conf_ini.c:206-207 | one configured hook is gone after saving and reading |
| IniFiles.SectionBack | src/iyelld/conf_ini.c:220-246 | a section printed from its table and read line by line into a new table: the new one lists the same |
| IniFiles.Save | src/iyelld/conf_ini.c:192-218 | the five sections under their headers, two of them cut short |
| IniFiles.FileBack | src/iyelld/conf_ini.c:192-218 | a configuration saved and read into new tables: these list the same if and only if the hooks and transmit sections are empty |
| IniReread.ParsedIsGood | src/iyelld/conf_ini.c:108-155 | the key and the values that a line gives can be printed: no separators, comment characters or outer blanks |
| IniReread.ReadIsGood | src/iyelld/conf_ini.c:53-99 | so can everything that reading a file leaves in the sections |
| IniReread.RereadIsTheSame | src/iyelld/conf_ini.c:192-218 | a file read, saved and read again gives the same lists if and only if the hooks and transmit sections are empty, as long as lists have at most 127 values and lines fit the buffer |
| IniReread.SectionIsTheSame | src/iyelld/conf_ini.c:220-246 | a section that was read, printed and read on its own is the same |
| IniReread.ManyValuesLost | src/iyelld/conf_ini.c:128-149 | of a list with more values all from the 128th on are lost |
| Syslog.SearchesFit | src/iyelld/rfc3164.c:91-93 | every search string and its NUL fit the buffer |
| Syslog.MatchesAreSearches | src/iyelld/rfc3164.c:228-269 | the four search strings are exactly the keys that match the message, wildcards included |
| Syslog.SearchesDistinct | src/iyelld/rfc3164.c:228-269 | no key is looked up twice |
| Syslog.FindTargets | src/iyelld/rfc3164.c:228-269 | the targets of the four lookups in order, and whether any key was found |
| Syslog.LookupsEnd | src/iyelld/rfc3164.c:228-269 | all lookups end in every table that reading a configuration leaves |
| Syslog.LookupsAreAScan | src/iyelld/rfc3164.c:206-280 | the lookups yield exactly the targets of all matching keys, once for each key, and find nothing exactly when no key matches |
| Syslog.MessagesHeard | src/iyelld/rfc3164.c:233-235 | the server hears the text said to every target, once and in order, if and only if every target is one word and no line end is in the text |
| Syslog.MessagesReach | src/iyelld/rfc3164.c:228-269 | who hears what the four lookups queue is, with multiplicity, who a scan of all records would name |
| Syslog.TransmissionsReach | src/iyelld/rfc3164.c:146-191 | the same for the bots |
| Syslog.FindTargetChannels | src/iyelld/rfc3164.c:206-280 | one PRIVMSG for each target in order; -1 exactly when no key is held; if every target a scan of the table would name is one word, exactly these hear the text, each as often as it is named, and nothing else is said |
| Syslog.FindTargetBots | src/iyelld/rfc3164.c:126-203 | one transmission for each target in order, under the name of the priority; -1 exactly when no key is held; the bots are, with multiplicity, those a scan of the table would name |
| Syslog.CleanTag | src/iyelld/rfc3164.c:307-319 | the tag is cut at its bracket, and replaced if it is a path |
| Syslog.Serve | src/iyelld/rfc3164.c:321-326 | both tables are served in order, and nothing is found exactly when neither has a key; who hears and who gets the text is what scans of the two tables would name |
| Syslog.Forward | src/iyelld/rfc3164.c:289-327 | a PRI over 191 is refused; otherwise the text with the cleaned tag is heard by exactly the channels, and transmitted to exactly the bots, that scans of the tables would name, and a complaint is made exactly when neither has a key and drops are not silent |
| Syslog.RoutingIsAScan | src/iyelld/rfc3164.c:289-327 | for every PRI up to 191 the channels served are those a scan of the whole table would name |
| SyslogTexts.PriExamples | src/iyelld/rfc3164.c:52-88 | the names of five priorities, four of them those of the examples in RFC 3164 |
| SyslogTexts.LocalNames | src/iyelld/rfc3164.c:52-77 | the eight local facilities are numbered |
| SyslogTexts.SharedNames | src/iyelld/rfc3164.c:52-77 | which codes share a name, and so a pattern |
| SyslogTexts.LookupOrder | src/iyelld/rfc3164.c:228-269 | everything first, then all severities, all facilities, and this one of each |
| SyslogTexts.TagShown | src/iyelld/rfc3164.c:307-319 | what stands in front of a bracket is shown, unless it is a path |
| SyslogTexts.ColorsAreDecoration | src/iyelld/rfc3164.c:217-221 | the plain message is the tag in brackets and the text, and without its colours the coloured one reads the same if and only if the tag does not start with a digit |
| Reload.CheckChannels | src/iyelld/hup.c:66-97 | the nested loops queue a JOIN for each new entry and then a PART for each old one: read line by line, what they queue turns the old entries into the new ones |
| Reload.SendJoins | src/iyelld/hup.c:71-82 | the first loop, in order; `Reload.LinesHeard` says how its lines are heard |
| Reload.SendParts | src/iyelld/hup.c:85-96 | the second loop, in order; `Reload.LinesHeard` says how its lines are heard |
| Reload.Found | src/iyelld/hup.c:72-78 | the inner loop is membership |
| Reload.LinesHeard | src/iyelld/irc.c:384-392 | the queued text is heard as the JOINs and PARTs that are meant, in order |
| Reload.DiffLeads | src/iyelld/hup.c:66-97 | the text on the wire turns the old entries into the new ones; an entry is joined if and only if it is new only, and parted if and only if it is old only |
| Reload.ReloadReachesChannels | src/iyelld/hup.c:66-97 | what the server makes of the text: the bot ends in exactly the configured channels if and only if no channel is kept under another key |
| Reload.KeyChangeParts | src/iyelld/hup.c:66-97 | whenever the key of a channel changes, whatever the channel and the keys, the text on the wire leaves the bot outside of it |
| Throttle.AttemptShape | src/iyelld/network.c:250-255 | the counting loop stops at the end of the buffer or just behind the newline that uses up the quota; at 0 only for an empty buffer or no quota |
| Throttle.BurstInRange | src/iyelld/network.c:246-255 | the counter stays between its reset value and 4 |
| Throttle.SettledPays | src/iyelld/network.c:246-301 | a call pays for the lines it gets through out of the budget of the time window, partial sends and resets included |
| Throttle.AbortedPays | src/iyelld/network.c:272-288 | so does a call that fails or is the last one, though the clock variable does not move |
| Throttle.SettledAccount | src/iyelld/network.c:246-301 | the simple account 4*sent <= 4*(burst change) + 5*(clock change) holds for every call that ends normally |
| Throttle.AbortedAccountExact | src/iyelld/network.c:246-288 | for a call that fails or is the last one it holds if and only if no reset was due, or the lines sent and the counter cleared are together at most the lines waiting and the quota |
| Throttle.FailedAccountExact | src/iyelld/network.c:246-278 | for a call that sends nothing: if and only if no reset was due or as many lines wait as the counter held |
| Throttle.FailedCallBreaksSimpleAccount | src/iyelld/network.c:246-278 | a failed call after a reset leaves more budget in the simple account than there was |
| Throttle.CallDrains | src/iyelld/network.c:219-306 | a call a second after the last sends a line or finds no quota, and leaves quota for the next |
| Throttle.DrainTerminates | src/iyelld/network.c:219-306 | n lines are gone after n + 1 calls a second apart, after n if there was quota left |
| Throttle.DrainBoundIsTight | src/iyelld/network.c:219-306 | the extra call is needed |
| Daemon.EmptyLineIsNothing | src/iyelld/irc.c:75-110 | an empty line dispatches nothing |
| Daemon.CleanupKeeps | src/iyelld/network.c:740-752 | cleaning up leaves a reconnection due or the loop broken, and no event waiting to write nothing |
| Daemon.ReadKeeps | src/iyelld/network.c:133-160 | a read of any bytes keeps the invariant |
| Daemon.WriteKeeps | src/iyelld/network.c:166-210 | a write with any result keeps the invariant |
| Daemon.ThrottledWriteKeeps | src/iyelld/network.c:219-306 | a throttled write with any result keeps the invariant |
| Daemon.IrcEventKeeps | src/iyelld/network.c:111-127 | so does the switch between them, which only writes when there is something to write |
| Daemon.ReconnectKeeps | src/iyelld/network.c:758-788 | so does every outcome of a reconnection attempt |
| Daemon.StepKeeps | src/iyelld/network.c:111-372 | every callback keeps: no write with an empty buffer, THROTTLED exactly with one pending timer, never deaf, no stuck flag, sent plus queued is all that was queued, burst counter at most 4 |
| Daemon.HookDataIsQueued | src/iyelld/hooks.c:571-600 | connected or not, the output stays as it is if and only if the line holds no reply |
| Daemon.QueuedWhileDisconnected | src/iyelld/hooks.c:592-594 | a concrete reply queued while the bot is not connected |
| DaemonRuns.StartedOk | src/iyelld/network.c:541-590 | the state the loop starts in satisfies the invariant |
| DaemonRuns.EveryRunIsSafe | src/iyelld/network.c:541-590 | every run from a state with the invariant ends in one, whatever the outside does and the handlers reply |
| DaemonRuns.ReachableStatesAreSafe | src/iyelld/network.c:541-590 | so does every run of the daemon from its start |
| DaemonRuns.ThrottledWriteStrandsNothing | src/iyelld/network.c:290-305 | output left by a throttled write has the timer pending, or EV_WRITE armed when no timer could be set |
| StrandedOutput.WhatStrandsOutput | src/iyelld/network.c:111-372 | exactly which callbacks leave output queued with neither EV_WRITE nor the timer armed: login lines, nick change, rejoin, reload, some replies of hooks, and a timeout whose unthrottled write is cut short |
| StrandedOutput.StartedStrands | src/iyelld/network.c:541-590 | and that the loop starts that way when there are login lines |
| DaemonRuns.SentReachesWire | src/iyelld/network.c:181-194 | what the socket took is appended to what it took before, unless the callback cleans up |
| DaemonRuns.StepPays | src/iyelld/network.c:219-306 | one callback pays for its lines out of the budget of the window |
| DaemonRuns.RunPays | src/iyelld/network.c:219-306 | so does a whole run |
| DaemonRuns.WindowRate | src/iyelld/network.c:219-306 | in any window of T seconds of throttled sending any run sends at most 5 + 5T/4 lines |
| RateReached.RateIsReached | src/iyelld/network.c:219-306 | for every T a run of the daemon that sends exactly 5 + 5T/4 lines, rounded down, in T seconds |
| RateReached.RateIsReachedFromStart | src/iyelld/network.c:541-590 | such a run from the start of the daemon |
| DaemonRuns.CycleDrains | src/iyelld/network.c:363-372 | the timer and the write behind it send one attempt and set THROTTLED exactly if something is left |
| DaemonRuns.ThrottledOutputGetsOut | src/iyelld/sched.c:118-130 | n lines of throttled output are gone after n + 1 rounds of the timer a second or more apart |
| ReadBoundaries.ReactNonEmpty | src/iyelld/irc.c:75-110 | empty lines ask for nothing and take no place among the lines that are answered |
| ReadBoundaries.FedDigests | src/iyelld/network.c:133-160 | reading a stream in pieces does what its finished non-empty lines ask for, in order |
| ReadBoundaries.ReadBoundariesDoNotMatter | src/iyelld/irc.c:62-117 | with answers that go by the command and the place of its line in the stream, two fragmentations of one stream leave the daemon in the same state: output, flags, timers, interest in writing, unfinished line |
| DaemonRuns.ShutdownIsFinal | src/iyelld/network.c:196-200 | once shutting down no callback schedules a reconnection, and any send ends the loop |
| StepLaws.StepIsLawful | src/iyelld/network.c:111-372 | of every callback: exactly which flags it sets and clears, how many timers of each kind are pending after it, and whether it ends the loop |
| StepLaws.LostLeavesNothing | src/iyelld/network.c:740-752 | a lost connection takes both buffers with it |
| StepLaws.WatchAfterWrite | src/iyelld/network.c:196-210 | after a write that goes on: listened to again; EV_WRITE stays armed after an unthrottled one while output is left, and is armed after a throttled one only if output is left, no timer was pending and none could be set |
| StepLaws.LinesNoted | src/iyelld/misc.c:58-67 | the lines of a read: connected if one says so, nick used if one says so with one timer for all, banned with one timer for each |
| StepLaws.SignalStartsShutdown | src/iyelld/signal.c:127-149 | SIGTERM sets the flag; without a connection the loop is over, otherwise one more timer for QUIT is pending; nothing else changes |
| StepLaws.ShutdownInRun | src/iyelld/sched.c:75-92 | over any run: shutting down at its end if and only if it was at its start or the signal came; from then on no reconnection is scheduled and no reload happens |
| StepLaws.SignalIsFinal | src/iyelld/signal.c:127-149 | after the signal, wherever it comes in a run: the flag holds to the end, no more reconnections are pending than at the signal, and a bot without a connection is done |
| StepLaws.ShutdownEnds | src/iyelld/network.c:326-339 | the signal, the timer for QUIT and one chance to write end the loop, whatever the send gives, unless the quota is used up |
| StepLaws.QuitForcesOutput | src/iyelld/network.c:326-339 | the first timer for QUIT queues it and asks for a write, any later one does nothing |
| StepTexts.DatagramQueued | src/iyelld/network.c:380-409 | a datagram is queued if and only if the bot is connected, and asks for a write whenever there is output; a failed receive changes nothing |
| StepTexts.LoginQueued | src/iyelld/network.c:758-788 | a new connection is listened to and gets the login lines |
| StepTexts.NickAskedFor | src/iyelld/misc.c:101-109 | the timer for the nick queues what is heard as a request for it |
| StepTexts.ChannelsRejoined | src/iyelld/misc.c:115-122 | the timer for banned channels queues the JOIN and nothing else |
| StepTexts.QuitSaid | src/iyelld/irc.c:459-475 | the timer for QUIT queues what is heard as one QUIT, or nothing the second time |
| StepTexts.ReloadSaid | src/iyelld/hup.c:138-190 | a complete reload queues what leads from the old channels to the new ones, and behind it what is heard as the new nick |
| StepTexts.HookHeard | src/iyelld/hooks.c:571-600 | a reply of a hook is heard where it should be, and a write is asked for if and only if the bot is connected |
| StepTexts.SelfPingSaid | src/iyelld/ctcp.c:174-182 | after a timeout the bot sends itself a CTCP PING |
| ServerLines.CodesAskFor | src/iyelld/irc.c:135-190 | for every sender and code free of blanks, colons and NULs, whatever stands behind: what the line asks for is what its code means, 376, 422, 433, 474, PRIVMSG and five others by name, every other code nothing |
| ServerLines.SenderKnown | src/iyelld/irc.c:162-171 | a PRIVMSG is taken for a message of its sender if and only if the sender holds no blank and no colon |
| ServerLines.SendersHaveNoColon | src/iyelld/irc.c:162-171 | whatever line is read, the sender of a message found in it holds no blank and no colon |
| ServerLines.CtcpAsks | src/iyelld/irc.c:88-94 | a line with byte 1 in it is handed on as CTCP without its colon |
| ServerLines.VerbAsks | src/iyelld/irc.c:97-109 | of the lines without a colon in front only PING asks for something, with its argument |
| ServerLines.CodeRead | src/iyelld/misc.c:58-94 | what one such line does when read on its own: 376 and 422 set connected, 433 sets nick used with one timer unless it was set, 474 sets banned with a timer, the others no flag and no timer; which codes are answered; output, event and all the rest |
| Bot.HasCtcp | src/iyelld/irc.c:90 | whether the line holds a CTCP mark |
| Bot.IrcSwitch | src/iyelld/irc.c:135-190 | two cuts and the comparisons in order give the dispatched command; `ServerLines.CodesAskFor` says which |
| Bot.ParseLine | src/iyelld/irc.c:79-110 | what one line of the server asks for; `ServerLines.CodesAskFor`, `ServerLines.CtcpAsks` and `ServerLines.VerbAsks` say what that is |
| Bot.Bot.constructor | src/iyelld/network.c:541-590 | the start of the loop, connected or with a reconnection due |
| Bot.Bot.Queue | src/iyelld/irc.c:587-591 | is `Daemon.Enqueue`: evbuffer_add |
| Bot.Bot.SendBytes | src/iyelld/network.c:268-281 | the bytes taken leave the buffer, none on an error |
| Bot.Bot.NetForceOutput | src/iyelld/network.c:345-360 | is `Daemon.ForceOutput` |
| Bot.Bot.NetThrottledWrite | src/iyelld/network.c:363-372 | is `Daemon.WriteAgain` |
| Bot.Bot.IrcDisconnect | src/iyelld/network.c:721-734 | is `Daemon.Disconnect` |
| Bot.Bot.ScheduleReconnection | src/iyelld/sched.c:75-92 | a timer, or the end of the loop on shutdown |
| Bot.Bot.NetIrcCleanup | src/iyelld/network.c:740-752 | is `Daemon.Cleanup` |
| Bot.Bot.Handle | src/iyelld/misc.c:58-94 | is `Daemon.React`: flags, timers and output of the handlers |
| Bot.Bot.HandleLine | src/iyelld/irc.c:79-110 | is `Daemon.React`: one line of irc_parse |
| Bot.Bot.ReadOne | src/iyelld/irc.c:75 | one line taken out leaves the goal of the loop unchanged |
| Bot.Bot.IrcParse | src/iyelld/irc.c:62-117 | the loop handles every finished line in order and leaves the unfinished one |
| Bot.Bot.NetIrcRead | src/iyelld/network.c:133-160 | is `Daemon.Read` |
| Bot.Bot.NetIrcWrite | src/iyelld/network.c:166-210 | is `Daemon.Write`: one send and its outcomes |
| Bot.Bot.ScheduleIrcWrite | src/iyelld/sched.c:118-130 | is `Daemon.ScheduleWrite` |
| Bot.Bot.FirstLines | src/iyelld/network.c:246-255 | reset and counting loop: the bytes of this attempt and the new burst counter |
| Bot.Bot.WriteLater | src/iyelld/network.c:293-296 | a timer unless one is pending |
| Bot.Bot.AfterSending | src/iyelld/network.c:290-305 | what follows the label `nothing` |
| Bot.Bot.NetIrcThrottledWrite | src/iyelld/network.c:219-306 | is `Daemon.ThrottledWrite`, or `Daemon.Write` when the clock fails |
| Bot.Bot.NetIrcEvent | src/iyelld/network.c:111-127 | is `Daemon.IrcEvent` |
| Bot.Bot.IrcReconnect | src/iyelld/network.c:758-788 | is `Daemon.Reconnect`: four outcomes |
| Bot.Bot.IrcShutdown | src/iyelld/network.c:326-339 | is `Daemon.Quit` |
| Bot.Bot.TryNickChange | src/iyelld/misc.c:101-109 | is `Daemon.ChangeNick` |
| Bot.Bot.TryRejoinAfterBan | src/iyelld/misc.c:115-122 | is `Daemon.Rejoin` |
| Bot.Bot.DatagramRead | src/iyelld/network.c:380-409 | is `Daemon.Arrival`: failed receives included |
| Bot.Bot.HandleHookLine | src/iyelld/hooks.c:592-594 | one line from a hook: queued, and forced out when accepted and connected |
| Bot.Bot.HooksRead | src/iyelld/hooks.c:571-600 | what was read goes into the buffer of the hook; one finished line is handled, or none |
| Bot.Bot.HupHandler | src/iyelld/hup.c:138-190 | is `Daemon.Reloaded`: given up half-way or complete |
| Bot.Bot.HandlerShutdown | src/iyelld/signal.c:127-149 | is `Daemon.ShutDown`; `StepLaws.SignalStartsShutdown` gives the whole new state and `StepLaws.SignalIsFinal` what follows |
| Bot.Bot.Callback | src/iyelld/network.c:541-590 | each event runs its callback as one step, its one-shot timer taken from the queue |
| Bot.Bot.Dispatch | src/iyelld/network.c:586-590 | the loop over any possible events, with any replies, is a run and ends in a state with the invariant |

## Left out

- Sockets, TLS, name resolution, processes, logging, statistics and usage text: I/O; results are parameters of the steps.
- libevent: its queue is the two flags of ev_irc and the counted timers; `event_add`, `event_del` and `event_once` succeed, except for the `event_once` of the throttle timer, whose failure is modelled. The inactivity timeout is allowed whenever ev_irc is registered, also before the first event_add with a timeout.
- Allocation failure, which hash_grow meets after it has changed its size.
- The float load test: it is 20*count > 13*size here, which agrees with it for the sizes tables reach. Capacities over the range of an unsigned integer are not modelled either.
- HashTable.Hash.Add: requires that its searches end (`TableSpec.AddStops`), since the C loops only end then; `TableSearch.AddEnds` says that they do. The same holds for Get and Remove with `TableSpec.LookupStops`, `TableSearch.LookupEnds` and `TableRuns.SlotLeftStops`.
- TableRuns.RunEnds: up to 2^29 bindings (`TableRuns.Room`); beyond that it depends on the keys whether a search in the largest table ends.
- TextTable.Delete: the key has to be held, because the C function reads past the array otherwise. Identity and freeing of the stored pointers are not modelled.
- IniFiles.SectionBack: entries have to be printable: keys and values without separators, comment characters, line ends or outer blanks, 1 to 127 values, lines under the buffer size; the same for IniFiles.FileBack. What was read is, but for the last two (`IniReread.ReadIsGood`). Files of 2^29 characters or more are not covered.
- IrcText.MessageHeard: the reader takes a target as it stands; a list of channels, an empty target or one that starts with a colon, which a server may refuse or read otherwise, is not told apart.
- HookWire.ReplyRoundTrip: the branch of the same callback for an action (`src/quotes/cmd.c:175-180`) is not covered; its format string holds a conversion that C does not define.
- HookPipe.CmdParseAll: that the arguments of an earlier line were freed is all that is said of them.
- Syslog.Forward: what shortening a path makes of the tag is a parameter, as in Syslog.CleanTag, since the copy overlaps its source.
- Reload.DiffLeads: for entries without line ends, which a configuration cannot hold (`IniReread.ReadIsGood`); the same for Reload.ReloadReachesChannels and Reload.KeyChangeParts.
- Bot.ParseLine: four lines are ordinary ones here although the handlers of the C program fail on them: PING without an argument, which asks for nothing here (a null pointer is read), and, answered like any other, a PRIVMSG to the bot with blanks only behind its nick (the assert at `src/iyelld/cmd.c:156`), a KICK without a channel (the length of a missing string at `src/iyelld/irc.c:311`), and 433 before a connection is ready when the configured nick has one letter (a division by 0 at `src/iyelld/misc.c:83`).
- Bot.Bot.Handle: the texts the handlers queue and the temporary nick are parameters.
- Bot.Bot.HooksRead: a read of no bytes, which ends the hook, is not modelled.
- Bot.Bot.HupHandler: the modes other than throttling, the signal to active hooks, and the end of the program when the old nick cannot be put back are not modelled.
- Bot.Bot.HandlerShutdown: signal handlers run as steps of their own, not in the middle of a callback, and the listeners it removes are not in the state. The handlers of SIGUSR1 and SIGUSR2, which overwrite the mode word, are not steps of this model.
- Bot.Bot.DatagramRead: closing the socket after a failed receive is not modelled.
- ReadBoundaries.ReadBoundariesDoNotMatter: the answers go by the command and the place of its line in the stream; answers that differ with the time of the read are not covered.
- Multi-line datagrams of info_parse, bot-to-bot transmission formats, CTCP replies, colours in other places and the SQL of the quotes hook: easy or library-bound members.
