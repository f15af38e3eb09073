# A model of the HTTP cache

This project models an RFC 9111 HTTP cache for an asynchronous web framework
and proves what it promises. The cache stores one response per key and `Vary`
signature, streams bodies through a tee into a storage backend, answers from
storage while a stored policy allows it, and revalidates with conditional
requests when it does not. There are three backends (in memory, on the file
system, and a hot tier over a cold one) and two front ends (a client handler and
a server handler).

`dafny verify dfyconfig.toml` checks everything.

## How it is laid out

| file | module | what it models |
|---|---|---|
| Text.dfy, Http.dfy | `Wrappers`, `Text`, `Http` | header text, header maps, methods, directives |
| Policy.dfy | `Policy` | the captured exchange, its Vary snapshot, its on-disk form |
| Freshness.dfy | `Freshness` | age, lifetime, stale windows |
| Storability.dfy | `Storability` | which exchanges may be stored |
| EntityTags.dfy | `EntityTags` | entity-tags and the `If-None-Match` scanner |
| Validation.dfy | `Validation`, `AgeChain` | answering, conditional requests, 304 merging, Age along a chain |
| Tee.dfy | `Tee` | the streaming tee and the background copy loop |
| VariantHash.dfy | `VariantHash`, `FileNames` | the hash input of a variant, file names |
| Storage.dfy | `Storage`, `Memory` | the abstract store, the in-memory backend |
| FileSystem.dfy | `FileSystem` | the file backend and its capacity index, operation by operation |
| FileCommit.dfy, FilePairing.dfy | `FileCommit`, `FilePairing` | the file commit protocol under interleavings and crashes: what is in place, when metadata, body and index belong together |
| FileReaders.dfy, FileRaces.dfy | `FileReaders`, `FileRaces` | exactly what a reader gets, and runs in which it gets two puts |
| FilePuts.dfy | `FilePuts` | what a closed put holds, dropped puts, refreshes |
| Tiered.dfy, TieredRaces.dfy | `Tiered`, `TieredRaces` | the two tiers under interleavings: what they hold, when policy and body are of one put |
| TieredPuts.dfy | `TieredPuts` | what a finalized put holds, refreshes |
| TieredInvalidation.dfy | `TieredInvalidation` | invalidation of both tiers |
| TieredWriteBack.dfy, TieredSchedule.dfy | `TieredWriteBack`, `TieredSchedule` | write-back to cold: when an entry reaches it, when the tiers agree |
| TieredReads.dfy | `TieredReads` | runs in which a reader misses or shortens what is stored |
| TieredObjects.dfy | `TieredObjects` | the tiered storage as an object whose methods are runs of those steps |
| Handlers.dfy | `Handlers` | both handlers as functions on a request's state |
| HandlerTheorems.dfy, HandlerRuns.dfy | `HandlerTheorems`, `HandlerRuns` | what both handlers guarantee, per request and per run |
| HandlerOutcomes.dfy | `HandlerOutcomes` | which course a handler takes: hit, made 304, stale answer, conditional request, miss |
| HandlerPairing.dfy, HandlerRaces.dfy | `HandlerPairing`, `HandlerRaces` | which exchange a stored policy and body come from, over whole runs |
| HandlerHonesty.dfy | `HandlerHonesty` | tags and bodies over whole runs against an honest origin |
| HandlerTiers.dfy | `HandlerTiers` | unsafe requests over the two tiers |
| HandlerObjects.dfy | `HandlerObjects` | both handlers as objects that edit a connection, equal to those functions |

## Conventions

- Header text is ASCII, one `char` per byte; header names are lower-case; a
  header maps a name to one value per line, and reading it as a single string
  gives nothing when there are several lines.
- Time and durations count nanoseconds. The heuristic ratio is a real number and
  the product is floored to whole seconds.
- `Library` holds the functions that come from other crates: Cache-Control
  parsing, HTTP dates, URL joining and hosts. Every result holds for any choice
  of them.
- Hashes are taken as collision-free and the metadata codec as lossless; what is
  proved is the hash input and the conversion on either side of the codec.
- Poll results of the upstream body, the writer and `finalize` are chosen by an
  adversary. File operations are atomic steps of interleaved tasks, and a crash
  may come between any two of them. Evictions pick any victim.
- The handlers work over in-memory buckets. Within one exchange, opening,
  putting and refreshing each succeed or fail throughout.
- Where the source loops, edits a header map in place or updates the fields of an
  object, the model has a method proved equal to a function; the results are
  proved about the function.
- The interleaving models number the puts in the order they were closed,
  finalized or committed, and mark stored records with those numbers. No store
  holds them; they say which put a body, a policy or trailers come from, so that
  equal contents do not pass for the same put.

## Where the code does less than it says

The model follows the code. Each of these is a lemma.

- A flush reads whatever hot holds when it runs and writes it under the policy
  of the put that spawned it, so cold can hold one put's policy over another's
  body (`FlushCanMixPuts`); the module documentation says the content served is
  always correct. Policy, body and trailers stay of one put exactly while every
  flush, open by path and refresh finds its own put and every promotion reads to
  the end (`RunWholeIff`), for which it is enough that writers of a slot take
  turns (`TurnsKeepPutsWhole`).
- A promotion is a tee, so a reader whose buffer is empty commits a truncated
  body to hot (`EmptyReadCutsPromotion`). Bodies are complete exactly while no
  promotion is finished before its body's end (`RunCompleteIff`).
- The documentation says that cold ends up holding every stored entry. While no
  cold copy is deleted and no flush fails, it does exactly when some flush found
  the entry in hot (`SettledInColdIff`); a hot eviction before that loses the put
  (`EvictedBeforeFlushIsLost`). And a slow older flush can put an older response
  back over a newer one (`OlderFlushCanWin`): the tiers hold the same put exactly
  when the last commit to hot and the last flush into cold are of one put
  (`TiersAgreeIff`), as they are once settled if writers take turns
  (`TiersAgreeWhenSettled`).
- Two overlapping file commits of one variant can leave, for good, one put's
  metadata and index count over the other's body (`CrossedCommitsMismatch`). So
  can a single replacement that crashes, or is abandoned, between its two
  renames (`CrashTearsReplacement`), although the documentation calls the
  metadata file a commit marker. A slot is paired exactly when the last body
  rename and the last metadata rename are of one put (`PairedIff`); when commits
  take turns, exactly when the last one was not cut short (`SerialPairedIff`).
- A reader between the two renames gets old metadata with the new body
  (`ReplacementShowsOldMetaNewBody`). It gets one put exactly when the last
  metadata rename at its lookup and the last body rename at its opening are of
  one put (`GetsOnePutIff`). Opening reads the length before opening the file, so
  a replacement in between announces the old length over the new body
  (`ReplacementMisstatesLength`), exactly when `OpensWhatItMeasuredIff` says.
- `invalidate` on the tiers empties hot and then cold. A reader that finds the
  key in cold between the two carries it back into hot, where it stays with
  nothing in flight (`ReaderOutlivesInvalidation`). The key is or can come back
  exactly when hot holds it again or a write for it is in flight as cold is
  emptied (`InvalidationIsFinalIff`); seen from before the call, exactly when a
  write is in flight or cold holds the key (`InvalidationCanFailIff`).
- A put after a hot eviction, and not only a promotion, hides the key's other
  cold variants (`PutHidesSibling`), exactly when `CommitHidesSiblingsIff` says.
- A response `no-cache`, or `proxy-revalidate` on a shared cache, is still
  served under a request's `max-stale`; only `must-revalidate` stops it
  (`OnlyMustRevalidateStopsMaxStale`).
- A request's own `If-None-Match` tags are sent along with the stored one and
  any 304 is trusted, so the cache may answer with its own body when the 304 was
  about the caller's, exactly when some forwarded tag names another body
  (`ForwardedTagsAreSafeIff`). A malformed list swallows the stored tag
  (`AppendAddsTagIff`).
- A read into an empty buffer looks like the end of the body and finalizes a
  truncated one (`EmptyBufferTruncates`). A tee that gave up on the cache loses
  the trailers, exactly when `TrailersLostIff` says; client and server differ
  where the length is known to only one of them.
- A server hit whose body fails to open leaves the cached head on the response
  (`FailedOpenLeaksCachedHead`). Head and body belong together on every path of
  both handlers except exactly there (`HeadAndBodyTogether`).
- A 304 that changes `Vary` moves the refreshed policy to another signature
  (`VaryOn304MovesVariant`). If nothing is stored under it the refresh is lost; if
  a sibling is, the sibling's body is left under the other response's status and
  headers (`RefreshOutcomeIff`, `RefreshCanHitSibling`).
- A 304 that arrives after its entry was replaced puts the older response's
  headers, entity-tag included, over the newer body (`LateRefreshMixes`). Policy
  and body stay of one exchange exactly while every 304 lands on the put it was
  looked up with (`RunPairsIff`).
- `age` adds two durations without saturating and overflows exactly when
  `AgeFitsIff` says; one `Age` header is enough (`AgeCanOverflow`).

## Model

| member | source | states |
|---|---|---|
| Policy.TargetedFieldDisplaces | src/policy.rs:25-63 | The targeted field takes effect exactly on a shared cache with one well-formed line of it holding a directive, and then Cache-Control has no influence; otherwise it has none itself, and Pragma counts exactly where there is no Cache-Control |
| Policy.PrintedDictionaryIsValid | src/policy.rs:71-101 | Every printed list of keys and key-value members passes as well-formed |
| Policy.BadMemberSpoilsDictionary | src/policy.rs:71-101 | A list with an empty member, or one whose key starts with anything but a letter or star, does not |
| Policy.ContainsIff | src/policy.rs:42-63 | The Pragma test finds the word exactly when it occurs somewhere in the line |
| Policy.VaryNamesStar | src/policy.rs:288-312 | `*` is among the snapshot's names exactly when some Vary line lists it, on whichever line and however spaced |
| Policy.VaryNamesAre | src/policy.rs:288-312 | The selecting names are the listed members of all Vary lines with their letters folded, all of them and no others |
| Policy.SameSignatureIff | src/policy.rs:181-183 | Two exchanges with one response get one signature exactly when the requests carry the same value for every listed member, in whatever case it is listed |
| Policy.ReprRoundTrip | src/policy.rs:220-286 | Saving and reloading a policy gives back every field exactly when its derived fields are the ones the constructor computes |
| Freshness.FreshnessTimeline | src/freshness.rs:13-32 | Age never falls nor outruns the clock; time-to-live is what is left to expiry; stale exactly when it is zero, exactly from expiry on, and for ever; a stale window is the interval of its own length starting at expiry, empty under must-revalidate or shared proxy-revalidate |
| Freshness.WindowsAreDirectives | src/freshness.rs:177-239 | Each stale window is the one its own directive opens |
| Freshness.ExpiresIsExpiry | src/freshness.rs:102-128 | With Expires the response lives from its Date to its Expires, an unreadable Expires means expired, and an immutable response lives at least its minimum |
| Freshness.CaptureStandsForDate | src/freshness.rs:146-151 | Without a Date the capture instant stands for it |
| Freshness.HeuristicIsRatio | src/freshness.rs:130-141 | Without Expires the lifetime is the configured ratio of the time since the last change to within the second, or nothing, and at least its minimum when immutable |
| Freshness.AgeTakesFirstNumber | src/freshness.rs:249-251 | Of an Age header the first line's first number counts, whatever whitespace, list or parameters surround it |
| Freshness.LifetimeSources | src/freshness.rs:37-141 | Which fields decide the lifetime, by what may be changed without changing it: guards give zero, shared s-maxage beats max-age, max-age beats dates, a private cache ignores shared fields, a targeted field silences Expires |
| Freshness.AgeFitsIff | src/freshness.rs:13-19 | The age sum stays representable exactly when the announced seconds plus the whole resident seconds do |
| Freshness.AgeCanOverflow | src/freshness.rs:159-168 | The largest Age header a parse accepts overflows the sum one second after capture |
| Freshness.ParsePrintedAge | src/freshness.rs:249-251 | Every age this cache prints is read back unchanged |
| Storability.StorableIff | src/storability.rs:54-121 | Storable exactly when nothing prohibits it, the method is GET, HEAD or an explicitly expiring POST, and the response expires explicitly, is public, or has a default-cacheable status |
| Storability.SafeStorableIsGetOrHead | src/storability.rs:73-84 | Of the methods that reach a lookup, only GET and HEAD can be stored, though POST passes the test |
| EntityTags.SkipToTag | src/validation.rs:369-380 | The cursor loop drops exactly the leading whitespace, commas and weak marks, and terminates on every input |
| EntityTags.IterEtagOpaques | src/validation.rs:364-387 | The scanning loop terminates on every input and yields the specified tags |
| EntityTags.ScanAppend | src/validation.rs:364-387 | Scanning a concatenation is scanning the first part and going on from where it stopped |
| EntityTags.ScanUndoesRender | src/validation.rs:364-387 | Scanning a printed list of weak and strong tags gives their opaque values in order, whatever whitespace and commas stand between |
| EntityTags.ScanTrim | src/validation.rs:320-331 | Trimming the list first changes no tag, for any text |
| EntityTags.OpaqueOfPrinted | src/validation.rs:353-358 | Stripping a printed tag, weak or strong, gives its opaque value |
| EntityTags.OpaqueIff | src/validation.rs:353-358 | Any text stands for an opaque value exactly when, trimmed, it is that value in quotes with or without the weak mark |
| EntityTags.InmIff | src/validation.rs:320-331 | On any text the precondition holds exactly for a star or a list with the stored opaque value among its tags |
| EntityTags.InmIsMembership | src/validation.rs:320-331 | On a printed list it is membership under weak comparison |
| EntityTags.AppendAddsTagIff | src/validation.rs:175-181 | Appending the stored tag to any text adds exactly that tag exactly when scanning the text alone runs to its end |
| EntityTags.AppendToRendered | src/validation.rs:175-181 | On every well-formed list the appended tag arrives last and changes nothing before it |
| Validation.CopyWithoutHopByHopHeaders | src/validation.rs:393-419 | The copy loop drops the fixed per-hop names and every name the Connection line lists, and nothing else |
| Validation.CopyIsEndToEnd | src/validation.rs:393-419 | A copy carries exactly the headers that are not per-hop, by name or by the Connection line in any case, as they were |
| Validation.ServedHeaders | src/validation.rs:226-234 | A served response has the stored status, every stored header that is not per-hop, and its own age in whole seconds |
| Validation.NotModifiedHeaders | src/validation.rs:70-92 | A 304 the cache makes carries seven of the stored headers, as they are, and the age, and nothing else |
| Validation.CallerConditionIff | src/validation.rs:52-63 | The caller's tags decide whatever date it gives; without tags the dates do, where both can be read |
| Validation.CachedResponse304 | src/validation.rs:70-92 | The loop keeps exactly the listed metadata fields that are stored, and sets the age |
| Validation.UsableStretch | src/validation.rs:111-161 | A matching response is used without contact exactly on a stretch of the clock bounded by the request's max-age, min-fresh and max-stale around expiry; the max-stale subtraction never underflows |
| Validation.OnlyMustRevalidateStopsMaxStale | src/validation.rs:140-158 | Under unlimited max-stale a response is refused exactly when it is stale and marked must-revalidate; no-cache and shared proxy-revalidate do not stop it |
| Validation.RevalidationRequestHeaders | src/validation.rs:167-215 | The in-place edits of the conditional-request builder compute the specified header map |
| Validation.RevalidationKeepsOthers | src/validation.rs:167-215 | The builder leaves every header outside its rewritten set as it was |
| Validation.ForwardedIsEndToEnd | src/validation.rs:167-215 | Besides its preconditions the conditional request is the caller's without what is per-hop |
| Validation.ConditionalDates | src/validation.rs:183-215 | It has no If-Range; its date is the caller's or else the stored Last-Modified, and none where weak validators may not be used |
| Validation.ConditionalTags | src/validation.rs:175-205 | Its list is the caller's with the stored tag behind it, or the one there is, filtered where weak validators may not be used |
| Validation.FilterKeepsStrongTags | src/validation.rs:190-205 | The filter drops exactly the weak tags of a list and keeps the others in order |
| Validation.RevalidationListsStoredTag | src/validation.rs:190-205 | When the request lists no tags, the origin sees exactly the stored strong tag, even after the weak-validator filter |
| Validation.MergeExcept | src/validation.rs:298-307 | The merge loop, in any header order, overlays the reply on the stored headers except for the excluded names |
| Validation.MergeRevalidationHeaders | src/validation.rs:298-314 | The excluded names are the four that describe the body |
| Validation.OwnRequestMatchesIff | src/validation.rs:96-107 | A policy matches the request it was captured from exactly when no Vary line lists `*` |
| Validation.MatchesIff | src/validation.rs:96-107 | It matches another request exactly when, besides, that request carries the same value for every listed member, in whatever case it is listed |
| Validation.RefreshSignatureIff | src/validation.rs:264-287 | A 304 keeps the signature exactly when the merged headers name the same selecting headers and the forwarded request still carries the stored values |
| Validation.RefreshKeepsVariant | src/validation.rs:277-307 | A 304 without Vary, for a response whose Vary names nothing the builder rewrites, keeps the signature |
| Validation.VaryOn304MovesVariant | src/validation.rs:277-287 | A 304 that adds a Vary line changes the signature |
| Validation.RefreshRestartsClock | src/validation.rs:264-291 | After a 304 the age counts from its arrival on top of what the merged headers announce, and the response is fresh on arrival exactly when its lifetime exceeds that |
| Validation.AnnouncedAge | src/validation.rs:298-314 | What they announce is the 304's Age if it has one and else the stored one |
| Validation.RefreshesKeepBodyDescription | src/validation.rs:248-314 | Through any number of 304s status, method, options and body-describing fields stay as stored, every other field is that of the last 304 that carried it, and the capture instant is the last 304's |
| AgeChain.ServedAge | src/validation.rs:226-234 | The next cache reads from a served head the age in whole seconds |
| AgeChain.AgeAlongChain | src/validation.rs:226-234 | Along any chain of k caches the age at the end never exceeds the true age and understates it by less than one second for each cache after the first |
| Tee.TeeingReader.constructor | src/tee.rs:67-76 | A new tee is active, empty, and has written nothing |
| Tee.TeeingReader.AbortWrite | src/tee.rs:78-82 | Aborting clears the pending bytes and touches nothing else |
| Tee.TeeingReader.DrainPending | src/tee.rs:109-122 | The drain loop does what the drain function says for every script of write results |
| Tee.TeeingReader.PollRead | src/tee.rs:86-179 | One poll does what the poll function says, fields and result, for every script of outcomes |
| Tee.TeeIsTransparent | src/tee.rs:86-179 | For every sequence of outcomes the reader gets the upstream bytes in order and nothing else, and whatever is finalized is exactly what the reader got |
| Tee.AbortedForever | src/tee.rs:78-82 | Once aborted, always aborted; nothing more reaches the writer and nothing is finalized |
| Tee.FinalizingPollIff | src/tee.rs:127-155 | The poll that finalizes stores the whole body exactly when the upstream is used up, with the trailers; with a non-empty buffer it always is |
| Tee.EmptyBufferTruncates | src/tee.rs:127-155 | One read into an empty buffer finalizes an empty body without trailers |
| Tee.OnlyWholeBodiesFinalize | src/tee.rs:127-155 | With non-empty buffers only the complete body, with its trailers, is ever finalized |
| Tee.ChunkingDoesNotMatter | src/tee.rs:127-178 | With a writer that never refuses and a body read to its end, what is stored depends on total length against the cap and never on chunking or stalls |
| Tee.TrailersFollowStorage | src/tee.rs:127-155 | The reader of such a run gets the whole body, and the trailers exactly when the body was stored |
| Tee.CopyIntoStorage | src/client.rs:580-606 | The background copy loop, with any read sizes, stores what the tee stores; after a fault it stores that or nothing |
| VariantHash.HashInput | src/fs.rs:579-594 | The hasher loop feeds exactly the encoding of the snapshot |
| VariantHash.FeedItem | src/fs.rs:582-592 | One item is fed as name, separator, presence mark, value, separator |
| VariantHash.EncodeIsInjective | src/fs.rs:579-594 | Equal hash inputs exactly for equal snapshots, over all NUL-free ones, absent and empty values told apart |
| VariantHash.SameInputIffSameVariant | src/policy.rs:181-183 | Two policies share a hash input exactly when they are the same variant |
| VariantHash.NulForgesBoundary | src/fs.rs:579-594 | With a NUL in a value, one item encodes like two |
| FileNames.NamesAreDistinct | src/fs.rs:606-611 | No two files of a directory share a name, and only a committed metadata file passes the lookup's suffix filter |
| Storage.LastPutWins | src/storage.rs:104-116 | After any sequence of operations a slot holds the body and trailers of the last put since its key was invalidated, under the policy of the last refresh |
| Storage.NoPutNoEntry | src/storage.rs:80-120 | A slot with no put since its key was invalidated holds nothing |
| Memory.RetainOthers | src/memory.rs:375-401 | The retain loop keeps, in order, exactly the other variants |
| Memory.RefreshVariants | src/memory.rs:229-267 | The refresh loop replaces the policy of the first matching variant and, when it reports no update, changed nothing |
| Memory.InMemoryStorage.constructor | src/memory.rs:97-108 | A new storage is empty |
| Memory.InMemoryStorage.Fetch | src/memory.rs:314-326 | A lookup returns the key's bucket, or nothing for an unknown key |
| Memory.InMemoryStorage.FinalizePut | src/memory.rs:375-401 | Finalizing replaces the variant of that signature and leaves other variants and keys |
| Memory.InMemoryStorage.RefreshPolicy | src/memory.rs:229-267 | A refresh changes one bucket, and none when the key is gone |
| Memory.InMemoryStorage.Invalidate | src/memory.rs:337-339 | Invalidation removes exactly the key |
| Memory.RefreshedFacts | src/memory.rs:244-263 | A refresh keeps every position's signature and body, keeps signatures distinct, and gives the new policy to the variant of its signature alone |
| Memory.MemoryRefines | src/memory.rs:314-401 | After every sequence of operations the buckets represent the abstract store, one entry per signature |
| Memory.FetchedIsStored | src/memory.rs:314-326 | What a lookup returns is exactly what the abstract store holds for the key |
| FileSystem.FileSystemStorage.constructor | src/fs.rs:130-145 | Opening over a directory starts with the index a scan of it gives |
| FileSystem.FileSystemStorage.ScanRoot | src/fs.rs:272-308 | The scan, in any directory order, indexes exactly the variants with both files, at their body lengths |
| FileSystem.FileSystemStorage.ScanDirectory | src/fs.rs:283-305 | One directory adds exactly its own complete variants |
| FileSystem.FileSystemStorage.Fetch | src/fs.rs:328-364 | A lookup returns each readable metadata file of the key once and nothing else |
| FileSystem.FileSystemStorage.Open | src/fs.rs:535-543 | Opening succeeds exactly when the body file is there and gives its bytes |
| FileSystem.FileSystemStorage.Put | src/fs.rs:366-391 | A put takes the next number and creates one empty temporary |
| FileSystem.FileSystemStorage.RefreshPolicy | src/fs.rs:521-533 | A refresh replaces one metadata file and nothing else |
| FileSystem.FileSystemStorage.Invalidate | src/fs.rs:393-413 | Invalidation removes every file of the key and the index entries of its variants |
| FileSystem.FileSystemStorage.Evicted | src/fs.rs:250-256 | Eviction removes both files and the index entry of the victim |
| FileSystem.FsPutHandle.constructor | src/fs.rs:375-390 | A new handle has written nothing and is not committed |
| FileSystem.FsPutHandle.Write | src/fs.rs:443-454 | Writing appends to the temporary and the count stays its length |
| FileSystem.FsPutHandle.Finalize | src/fs.rs:466-484 | Finalizing fails exactly when the temporary is gone; otherwise both files and the index entry are replaced |
| FileSystem.FsPutHandle.Drop | src/fs.rs:487-493 | Dropping removes the temporary exactly when nothing was committed |
| FileSystem.IndexEqualsScan | src/fs.rs:242-308 | After any sequence of puts, dropped puts, refreshes, invalidations and evictions of arbitrary victims the index equals the one a fresh scan builds |
| FileSystem.DiskRefines | src/fs.rs:324-485 | After every sequence of operations the files represent the abstract store, with no temporary left |
| FileSystem.BackendsAgree | src/fs.rs:328-364 | For every sequence of operations the file and memory backends hold the same policy, body and trailers in every slot, reloaded policies equal in every field |
| FileCommit.StepKeepsInv | src/fs.rs:466-484 | Every step of every task keeps the protocol invariant |
| FileCommit.RunKeepsInv | src/fs.rs:366-391 | The invariant holds in every interleaving, crashes included |
| FileCommit.OpenBodyIsComplete | src/fs.rs:535-543 | Whenever a reader has a body open it streams the complete bytes of one closed put for the slot it asked for, under metadata and a length from puts for that slot |
| FileCommit.FirstWriteIsAtomic | src/fs.rs:466-484 | While a slot has had one closed put and no refresh, a reader gets that put's policy, trailers, length and body together |
| FileCommit.LiveTemporariesDiffer | src/fs.rs:606-611 | No two live tasks of one process share a temporary number |
| FileCommit.VisibleImpliesOpenable | src/fs.rs:466-484 | Unless its body is deleted, an entry whose metadata is in place has its body in place, at every step and crash point |
| FileCommit.FinalInodeKept | src/fs.rs:466-484 | The file behind a committed name is never written again |
| FileCommit.OnlyRenamesChange | src/fs.rs:466-484 | What a lookup finds in a slot changes only by a rename into it or a deletion |
| FilePairing.SlotFollowsSchedule | src/fs.rs:466-484 | In every run the body, metadata and index count of a slot are those of the last rename, rename and insert the schedule made, and each is a record of a closed put of that slot |
| FilePairing.PairedIff | src/fs.rs:466-484 | In every run, crashes and abandoned tasks included, metadata and body in place are of one put exactly when the last body rename and the last metadata rename are of one put |
| FilePairing.IndexedIff | src/fs.rs:272-308 | In every run the index counts for a slot what a scan would exactly when the last count is of the put whose body was renamed last and metadata is in place |
| FilePairing.UnfinishedIsUnpaired | src/fs.rs:466-484 | Until the last put to rename its body renames its metadata, no file and no other task has that put's metadata |
| FilePairing.SerialKeepsSlot | src/fs.rs:466-484 | While commits take turns, whatever crashes, at most one window is open, and finished commits leave their own metadata over their own body |
| FilePairing.SerialPairedIff | src/fs.rs:487-493 | A commit cut short leaves the slot unpaired in any run; when commits take turns the slot is paired exactly when the last was not cut short |
| FileRaces.CrashTearsReplacement | src/fs.rs:466-484 | From an empty directory, one writer at a time and a crash between its renames leave the old put's metadata over the new put's body with nothing running |
| FileRaces.CrossedCommitsMismatch | src/fs.rs:466-484 | From an empty directory, two crossing commits leave one put's metadata and count over the other's body with nothing running |
| FileRaces.ReplacementShowsOldMetaNewBody | src/fs.rs:468-476 | From an empty directory, a reader between the renames of a replacement holds the first put's metadata and streams the second put's body |
| FileRaces.ReplacementMisstatesLength | src/fs.rs:535-543 | From an empty directory, a rename between measuring and opening leaves a reader with a length that differs from the body it streams |
| FileReaders.LookupHandsOutLastMeta | src/fs.rs:328-364 | In every run a lookup hands out metadata of the put last renamed into the slot, and nothing exactly when there is none |
| FileReaders.MeasureTakesLastBody | src/fs.rs:535-543 | In every run measuring takes the length of the body last renamed into the slot, and fails exactly when there is none |
| FileReaders.OpenStreamsLastBody | src/fs.rs:535-543 | In every run opening streams the body last renamed into the slot, which is of the metadata's put exactly when that put made the last body rename |
| FileReaders.OpensWhatItMeasuredIff | src/fs.rs:535-543 | A reader opens the put it measured exactly when the last body rename is still the same, and announces the length it streams exactly when both puts have bodies of one length |
| FileReaders.GetsOnePutIff | src/fs.rs:328-364 | A reader gets metadata and body of one put exactly when the last metadata rename at its lookup and the last body rename at its opening are of one put |
| FilePuts.OpenFileHoldsItsChunks | src/fs.rs:443-454 | In every run an open put has on disk exactly the chunks written to it since it was begun, in order |
| FilePuts.ClosedPutsAreWhatWasWritten | src/fs.rs:466-484 | In every run the closed puts are those, each under the policy it was begun with and the trailers it was closed with |
| FilePuts.DroppedPutsLeaveNothing | src/fs.rs:487-493 | While the process lives every body temporary belongs to a put under way |
| FilePuts.RefreshInstallsPolicy | src/fs.rs:521-533 | A refresh run on its own installs the new policy over the record's own trailers and leaves the body in place |
| FileCommit.UntouchedOpenIsMeasured | src/fs.rs:535-543 | If nothing is renamed into the slot or deleted in between, the opened body is the measured one, whatever other tasks do |
| Tiered.RunKeepsInv | src/tiered.rs:227-355 | In every interleaving each entry, handle and copy in progress carries a body of a finalized put, complete exactly when not cut short, and every finalized put passed the storability test |
| Tiered.TiersHoldFinalizedBodies | src/tiered.rs:124-156 | In every interleaving what either tier holds for a key and signature is the body of a finalized put for that key and signature, whose exchange was storable and whose method is GET or HEAD, and complete exactly when no promotion it came through was cut short |
| TieredPuts.OpenPutHoldsItsChunks | src/tiered.rs:277-283 | In every run an open put holds exactly the chunks written to it since it was begun, in order |
| TieredPuts.FinalizedPutsAreWhatWasWritten | src/tiered.rs:299-317 | In every run the finalized puts are those, each with the trailers of its own finalization and the policy of its own exchange |
| TieredPuts.TiersHoldWhatWasWritten | src/tiered.rs:124-156 | What either tier holds uncut is byte for byte what some put wrote for that key and signature |
| TieredPuts.RefreshTouchesServingTier | src/tiered.rs:220-225 | A refresh puts the new policy on the variant of the tier that served the handle, and on the handle, and leaves bodies, other variants and the other tier |
| Tiered.RunCompleteIff | src/tiered.rs:227-246 | Over a whole run every body stored, handed out or under way is complete throughout exactly when no promotion is finished before its body's end |
| Tiered.HandlesCarryFinalizedBodies | src/tiered.rs:227-246 | A reader's handle carries such a body too, however old |
| TieredRaces.FlushCopiesCurrentBody | src/tiered.rs:324-355 | The three flush steps leave cold with hot's present body under the flush's own policy |
| TieredRaces.FlushCanMixPuts | src/tiered.rs:324-355 | From an empty store, two puts of one slot and the first one's late flush leave the first policy over the second body |
| TieredRaces.WholeIsOnePut | src/tiered.rs:299-317 | An entry whose body, policy and trailers carry one number is that put, up to a refresh of its policy |
| TieredInvalidation.InvalidationIsFinalIff | src/tiered.rs:153-156 | Whatever happens between emptying hot and emptying cold, the key is stored afterwards exactly when hot holds it again, and can come back without a new put exactly when it does or a write is in flight by then; no other key is touched |
| TieredInvalidation.InvalidationCanFailIff | src/tiered.rs:153-156 | Seen from before the call, some course of events without a new put lets the key outlive it exactly when a write is in flight or cold holds the key |
| TieredInvalidation.ReaderOutlivesInvalidation | src/tiered.rs:153-156 | From an empty store, a reader between the two halves leaves the key in hot after the call, with nothing in flight before or after |
| TieredInvalidation.InFlightCanReturn | src/tiered.rs:311-355 | From any reachable state with a write in flight there is a continuation, without a new put, that stores the key |
| TieredInvalidation.RunKeepsGone | src/tiered.rs:153-156 | A key stored nowhere and with nothing in flight stays so until it is put again |
| TieredObjects.TieredStorage.constructor | src/tiered.rs:78-84 | A new storage is the empty state of the step model |
| TieredObjects.TieredStorage.HandOut | src/tiered.rs:124-139 | Handing out one entry is one lookup step |
| TieredObjects.TieredStorage.HandOutAll | src/tiered.rs:124-139 | Handing out several, in any order, is a run of lookup steps, one handle each |
| TieredObjects.TieredStorage.Fetch | src/tiered.rs:124-139 | A lookup is a run of lookup steps that hands out exactly the visible variants, from hot whenever it has any |
| TieredObjects.TieredStorage.Put | src/tiered.rs:141-151 | Opening a put is one step |
| TieredObjects.TieredStorage.Write | src/tiered.rs:277-283 | Writing is one step |
| TieredObjects.TieredStorage.Finalize | src/tiered.rs:299-317 | Finalizing commits to hot and spawns the flush, in one step |
| TieredObjects.TieredStorage.CopyAll | src/tiered.rs:344-352 | The copy loop, with any read sizes, is a run of copy steps and copies the whole body |
| TieredObjects.TieredStorage.FlushToCold | src/tiered.rs:324-355 | A flush run on its own is a run of steps and leaves cold with hot's present body under the spawning put's policy, or nothing when hot lost it |
| TieredObjects.TieredStorage.Invalidate | src/tiered.rs:153-156 | An invalidation that nothing interrupts is the two halves in order and removes exactly the key from both tiers |
| TieredRaces.StepWholeIff | src/tiered.rs:227-246 | A step keeps every entry, handle and copy of one put exactly when the flush, open by path or refresh it makes finds its own put and the promotion it ends was read to the end |
| TieredRaces.RunWholeIff | src/tiered.rs:324-355 | In every run policy, body and trailers are of one put throughout exactly when every flush, open by path and refresh finds its own put and every promotion reads to the end |
| TieredRaces.TurnsKeepPutsWhole | src/tiered.rs:299-355 | When writers of a slot take turns and handles are used while current, every flush finds its own put and everything stored or handed out is one finalized put, refreshes included |
| TieredReads.PutHidesSibling | src/tiered.rs:124-139 | From an empty store, a variant put and flushed, its key evicted from hot and another variant put leave the first in cold with no lookup showing it |
| TieredReads.EmptyReadCutsPromotion | src/tiered.rs:227-246 | From an empty store, opening a cold entry and reading into an empty buffer leave hot with an empty body |
| TieredObjects.TieredStorage.OpenAndRead | src/tiered.rs:227-246 | Opening a cold entry, as handed out or by its path, and reading it to its end is a run of steps, hands over the body and leaves hot with that entry, and fails exactly when a body sought by its path is gone |
| TieredObjects.TieredStorage.ReadPromoted | src/tiered.rs:227-246 | Reading a promoted body to its end is a run of copy steps and a commit, and leaves hot with the whole body |
| TieredObjects.TieredStorage.CommitPromotion | src/tiered.rs:227-246 | The tee's finalize of a promoted body, wherever the reading stopped, is one step |
| TieredRaces.CommitHidesSiblingsIff | src/tiered.rs:124-139 | After a commit to hot every cold variant of the key is visible exactly when hot already had the others |
| TieredWriteBack.RunKeepsBacked | src/tiered.rs:299-355 | In every interleaving without cold deletions or failed flushes, what hot holds is in cold or on its way there, and what comes out of cold is still in cold |
| TieredWriteBack.ColdEndsUpHolding | src/tiered.rs:47-54 | So once a slot's flushes have run, a variant hot holds is in cold too, as the body of a finalized put of that slot |
| TieredSchedule.TiersFollowSchedule | src/tiered.rs:299-355 | In every run each tier holds for a slot the put last committed to it by the schedule and not removed since |
| TieredSchedule.TiersAgreeIff | src/tiered.rs:47-60 | In every run a variant in both tiers is of one put in both exactly when the last commit to hot and the last flush into cold are of one put, and then uncut bodies are equal |
| TieredSchedule.ReachesColdIff | src/tiered.rs:334-341 | While no cold copy is deleted and no flush fails, restarts included, a slot is in cold or being copied there exactly when some flush of it found it in hot |
| TieredSchedule.SettledInColdIff | src/tiered.rs:47-54 | So with no copy left running a stored entry is in cold exactly when some flush found it in hot |
| TieredWriteBack.EvictedBeforeFlushIsLost | src/tiered.rs:334-341 | From an empty store, a put evicted from hot before its flush looks ends up in neither tier |
| TieredWriteBack.OlderFlushCanWin | src/tiered.rs:324-355 | From an empty store, two puts whose flushes overlap can leave the newer response in hot and the older one in cold with nothing left to run |
| TieredWriteBack.TiersAgreeWhenSettled | src/tiered.rs:47-60 | When writers of a slot take turns and cold entries are opened while current, the settled tiers hold the same put, policies equal unless that put was refreshed |
| Handlers.PickFacts | src/client.rs:155-228 | The handlers settle on the first candidate of the key whose signature matches, and on none exactly when none matches |
| HandlerOutcomes.LookupOutcome | src/client.rs:136-237 | Every lookup of both handlers: unsafe methods are remembered; the first match is answered from, answered as a 304, served stale with a revalidation started, or sent for validation with the conditional request; without one it is a miss |
| HandlerOutcomes.CallerConditionAnswered | src/server.rs:187-197 | A caller whose precondition holds of a usable candidate gets a 304 without a body, with the stored metadata and the age |
| HandlerOutcomes.BackgroundStartedIff | src/client.rs:187-225 | A background revalidation is started exactly when the client's first match may not be used as it is and lies within its stale-while-revalidate window; it is for that candidate and key and lists the stored tag, and the request is halted exactly when the body opens |
| HandlerOutcomes.StaleIfErrorIff | src/client.rs:239-285 | When validation ends in a 5xx or, for the client, a transport error, the stored response is served exactly within its stale-if-error window if its body opens, whole and with the error put aside |
| HandlerOutcomes.BackgroundLikeForeground | src/client.rs:390-475 | A background revalidation leaves the storage a synchronous one would |
| HandlerOutcomes.RevalidatedThenServed | src/client.rs:477-517 | After a 304 that keeps the signature the same request is a hit again by either handler, with the stored status and bytes and an age counted from the 304's arrival |
| Handlers.ClientSimulatesServer | src/server.rs:146-411 | With no stale-while-revalidate candidate, no transport error, no failing open and agreeing lengths, client and server leave the same response, pending write and storage |
| HandlerTheorems.ServedAtLookup | src/client.rs:136-237 | At lookup a stored body is served exactly when the request is halted, it is the chosen candidate's, and never stale under must-revalidate |
| HandlerTheorems.ServedAfterReply | src/client.rs:239-330 | After the reply a stored body is served only on a 304 or without must-revalidate, and is the one sent for validation |
| HandlerTheorems.MustRevalidateIsHonoured | src/server.rs:146-288 | On every path of both handlers a response stale at lookup and marked must-revalidate is not served unless a 304 arrived for this request |
| HandlerTheorems.HeadAndBodyTogether | src/client.rs:136-330 | On every path of both handlers status and headers are those of whatever the body is, except exactly where the server's open of a usable candidate fails and the reply does not overwrite all of the cached head |
| HandlerRuns.FailedOpenLeaksCachedHead | src/server.rs:168-186 | After such a failing open the server shows the cached head with the reply on top, an age included that belongs to no response, and the client shows the reply |
| HandlerTheorems.MissIsStored | src/client.rs:519-574 | A storable miss that fits is handed on unchanged with its trailers, and ends up stored as exactly that body under the exchange's policy |
| HandlerTheorems.StoredThenServed | src/client.rs:136-237 | Afterwards the same request is answered from storage by either handler with the same status, bytes, trailers and every header of the reply that is not per-hop, under the age since it was stored, for as long as the policy may be used |
| HandlerTheorems.RevalidationOutcome | src/client.rs:477-517 | After a synchronous revalidation the user gets the stored body on a 304 and the origin's otherwise, in both handlers |
| HandlerTheorems.RevalidationServesCurrent | src/server.rs:301-394 | With no tags on the request, a strong comma-free stored tag and an origin that sends 304 only for a listed current tag, the body served is the origin's current one |
| HandlerTheorems.ForwardedTagsAreSafeIff | src/validation.rs:175-205 | For any request, method and list, a 304 is safe against every origin that answers a listed current tag exactly when every tag scanned from the forwarded list names the stored body |
| HandlerTheorems.OwnTagsAreSafeIff | src/validation.rs:175-181 | For a GET with a well-formed list of its own, exactly when each of those tags names the stored body |
| HandlerHonesty.StoredBodiesKeepTheirTags | src/client.rs:477-574 | In every run with callers that list no tags, an origin that sends each body with its own tag, and 304s that land on their own put, each stored body is the one its tag names |
| HandlerHonesty.RunServesCurrent | src/client.rs:477-517 | At any point of such a run a request that is revalidated gets the origin's current body |
| HandlerTheorems.RefreshUpdatesStoredVariant | src/memory.rs:244-263 | Under the conditions that keep the signature, a 304 puts the merged policy on the stored variant and keeps its body |
| HandlerTheorems.RefreshOutcomeIff | src/memory.rs:229-267 | A refresh renews the stored variant and nothing else exactly when it keeps the signature; otherwise it is lost when nothing has the new signature, and else overwrites that sibling's policy and keeps its body |
| HandlerTheorems.NotModifiedRenewsIff | src/validation.rs:264-287 | A 304 renews the stored variant and nothing else exactly when the merged headers name the same selecting headers and the forwarded request carries the stored values |
| HandlerTheorems.RefreshCanHitSibling | src/client.rs:477-517 | A 304 with `Vary: b` for the variant stored under `a` leaves the body stored under `b` with the other's status and merged headers |
| HandlerTheorems.UnsafeInvalidatesExactly | src/client.rs:286-343 | After an unsafe request exactly the GET and HEAD entries of its URL and same-host targets are gone if the reply is a 2xx or 3xx, none otherwise, and everything else is unchanged |
| HandlerRuns.PutsMayBeStored | src/client.rs:519-574 | A put is opened only for GET and HEAD, under the request's key, with the policy of an exchange that is storable |
| HandlerRuns.OnlyGetAndHeadStored | src/storability.rs:73-84 | In every run of both handlers, lookups and replies interleaved, only GET and HEAD keys are stored, pending or under background revalidation |
| HandlerRuns.FinishStore | src/client.rs:239-330 | In both handlers a reply changes storage only by the refresh of a 304 or the deletions of an unsafe request |
| HandlerRuns.AnswerStore | src/client.rs:286-343 | The handler run in one go does to storage the refresh of a 304 or all the calls of an unsafe reply |
| HandlerRuns.CallsAreTargets | src/client.rs:286-343 | The invalidation calls of an unsafe reply are exactly those for the GET and HEAD keys of the targeted URLs |
| HandlerRuns.UnsafeCallsExactly | src/server.rs:255-299 | In every run the reply to an unsafe request calls for exactly the GET and HEAD keys of its URL and same-host targets if it is a 2xx or 3xx, for none otherwise, changes nothing else and starts no write |
| HandlerRuns.StoredIffPutSinceCall | src/client.rs:336-343 | In every run, the calls made one by one among all other events, a key is stored exactly when it was put after the last call to invalidate it |
| HandlerRuns.UnsafeLeavesNothing | src/server.rs:292-299 | So nothing is stored for a targeted URL once its calls were made and nothing was put for it since, under any method |
| HandlerRuns.TeedBodyIsReceived | src/tee.rs:127-155 | What the handlers' model says the reader of a teed body receives is what the tee hands over, for every run of polls that refuses no write |
| HandlerRuns.TrailersLostIff | src/client.rs:519-574 | On a miss the reader gets all bytes, and loses trailers exactly when there are some, the reply is storable, its announced length was not declined and the body is over the cap |
| HandlerTiers.UnsafeLeavesNothingInTiers | src/tiered.rs:153-156 | Over two tiers, with nothing in flight for a targeted key and no cold lookup of it during its call, nothing for it is in either tier afterwards, under any method |
| HandlerPairing.StoredComesFromPuts | src/client.rs:477-574 | In every run whatever is stored is the body and trailers of one committed put under a policy that descends by 304s from one committed put |
| HandlerPairing.PairedDescribesBody | src/validation.rs:298-314 | When the two are one put, status and body-describing headers are those stored with the body |
| HandlerPairing.EventPairsIff | src/client.rs:477-517 | An event keeps every stored policy over its own body exactly when its 304, if any, lands on the put it was looked up with |
| HandlerPairing.RunPairsIff | src/client.rs:390-475 | Over a whole run, background revalidations included, policy and body are of one put throughout exactly when every 304 lands on its own put |
| HandlerRaces.LateRefreshMixes | src/client.rs:477-517 | From an empty store, two lookups, a newer response for the one and then a 304 for the other leave the newer body under the older entity-tag |
| HandlerObjects.Connection.constructor | src/client.rs:136-140 | A connection comes in without status, response, body or context |
| HandlerObjects.Cache.constructor | src/client.rs:67-73 | A new cache is empty with nothing pending |
| HandlerObjects.Cache.Serve | src/client.rs:348-360 | Head and body of a stored response are set together and nothing else |
| HandlerObjects.Cache.UseCandidate | src/client.rs:157-185 | A usable candidate halts the request, or on a failing open leaves only the cached head |
| HandlerObjects.Cache.ClientRequest | src/client.rs:136-237 | The client's candidate loop equals the client lookup function |
| HandlerObjects.Cache.ServerRequest | src/server.rs:146-222 | The server's candidate loop equals the server lookup function |
| HandlerObjects.Cache.MissReply | src/client.rs:519-574 | The in-place edits equal the miss function |
| HandlerObjects.Cache.RevalidationReply | src/client.rs:477-517 | The in-place edits equal the revalidation function |
| HandlerObjects.Cache.InvalidateUrls | src/client.rs:286-343 | The loop over target headers equals the invalidation function |
| HandlerObjects.Cache.ClientReply | src/client.rs:239-330 | The client's reply handling equals its function |
| HandlerObjects.Cache.ServerReply | src/server.rs:224-288 | The server's reply handling equals its function |
| HandlerObjects.Cache.BackgroundReply | src/client.rs:390-475 | A background revalidation leaves the storage its function gives, or after a copying fault the storage as it was |

## Left out

- The async runtime, wakers, pinning, sockets, connectors and the file-system runtime shims: polls and file operations are outcomes and steps.
- The index library's admission, recency, time-to-live and time-to-idle policies and the enforcement of the byte cap: an eviction removes any indexed victim.
- SHA-256 and the metadata codec: taken as collision-free and lossless.
- Parsing of Cache-Control, HTTP dates and URLs, and chunked framing: other crates.
- Rounding of the heuristic lifetime in floating point: a real ratio with a floor.
- Header values that are not UTF-8, whitespace outside ASCII, and invalid header names.
- Wrap-around of the tee's byte counter past 64 bits; the comparison with the cap saturates as in the code.
- fsync, power loss and several processes over one root: the code claims nothing there.
- Creation and removal of the key directories themselves: removing a directory is the deletion of its files, in any order.
- What a body object does with an announced length that disagrees with its stream: it is part of another crate.
- Refreshes that change the signature on the file and tiered backends: the interleaving models cover those that keep it.
- Replaying a body from memory and weighing a bucket for the capacity limit.
- Server requests without a host: they bypass the cache.
- Logging, debug output, builder setters, examples and conformance results.
- TieredRaces.TurnsKeepPutsWhole: goes one way, for taking turns is more than is needed; the exact condition is in TieredRaces.RunWholeIff.
- TieredWriteBack.ColdEndsUpHolding: says that cold holds a body of a finalized put, not that it is the one hot holds; TieredSchedule.TiersAgreeIff says exactly when it is.
- TieredWriteBack.TiersAgreeWhenSettled: goes one way, for an orderly schedule is more than is needed; the exact condition is in TieredSchedule.TiersAgreeIff.
- FileCommit.UntouchedOpenIsMeasured: goes one way; the exact condition is in FileReaders.OpensWhatItMeasuredIff.
- Methods of the tiered storage object run without interruption; what other tasks do between their steps is in the interleavings.
- HandlerTheorems.RevalidationServesCurrent: bodies only; the head after a 304 is covered by HandlerTheorems.HeadAndBodyTogether and Validation.RefreshesKeepBodyDescription.
- HandlerObjects.Cache.UseCandidate: on a failing open the client's response headers are overwritten by the network's, so the leak shows on the server only.
