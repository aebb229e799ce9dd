# Verified models of Cockpit's browser library

These Dafny modules model the parts of Cockpit's JavaScript that keep state over time or have to undo what they
did, and prove what each of them promises for all inputs, all runs and all reachable states.

* **Series cache** (`JsValues`, `Blocks`, `Sequences`, `SeriesIndex`, `Ranges`, `SeriesSink`). `cockpit.series` keeps
  blocks of samples in a sorted index and, through the same entries, in a linked list in order of arrival. `Blocks`
  says on values what the cache means: a map from timestamps to items. The class `SeriesSink` has the source's loops
  (binary search, walk, splice, expiry, two-phase load) and is proved against that. The one condition that stashing
  needs, that no stored block reaches strictly past both ends of the new one, is proved to be exact, and the
  placeholders of a load are proved to meet it always.
* **Metrics** (`Frames`, `Metrics`). Delta frames are expanded in place; slots that were left out share lists with
  the frame before. Expansion is exact for exactly the transmissions a sender may make, and sharing never lets a
  later message change an earlier frame.
* **`cockpit.file`** (`FileModify`, `FileHandles`). A state machine of any number of `modify` calls and outside
  writers on one tagged file. About the server it assumes that a replace with a tag compares and commits in one
  step, that each version has a tag of its own, that a missing file has the tag "-", and that a read is refused for
  a conflict only if a version was made since it was opened. The class `FileHandle` has the code of one handle, with
  the read that calls share and the promises whose callbacks run later, and is proved to make only steps of that
  machine.
* **Upload** (`Upload`). The send loop, its window, the waiter and the fallback block reader.
* **D-Bus** (`DBusCalls`, `DBusCaches`). The table of pending calls, with an independent definition of which event
  settles a request; and the property cache with the proxies and collections that mirror it.
* **Locations** (`Strings`, `Percent`, `Locations`). Paths and options in the hash of the URL, written and read.
  Percent-encoding is that of section 2.1 of RFC 3986.
* **Axis ticks** (`Ticks`), over exact reals.
* **kdump configuration** (`ConfigText`, `LineDeletion`, `ConfigLines`, `KdumpConfig`, `KdumpSuse`,
  `KdumpTargets`). Reading settings out of lines and editing the lines, in both forms of the file.

Loops and objects of the source are methods and classes here; each is proved equal to a function on values, and
the properties are lemmas about these functions. Where a property does not hold of the code, the model keeps the
code and the lemma gives the exact condition (an "if and only if"):

* a block inside a stored one breaks the series cache (`InsertIsOverwrite`);
* `modify` with a content but without its tag overwrites a version unseen: it keeps that update exactly if its
  callback makes the same of both (`UnreadKeeps`, `NoTagKeeps`; `NoTagLosesUpdate` is a run that does not);
* location options with empty first values, with one value in a list, or with three and more do not come back
  (`OptionsRoundTrip`), and neither does a path that begins with the root (`PathRoundTrip`);
* a retry that joins an older read can be refused for the same version again (`JoinedReadRefused`), once for each
  such read (`ConflictsAreForeign`);
* a D-Bus proxy can keep properties that are gone (`ExactAfterUpdate`, `ExactAfterRun`, `StaleProperty`);
* the line numbers to delete from a kdump configuration are sorted as texts, so that lines 9 and 10 delete a wrong
  line (`SortingRemovesRight`, `NineAndTen`); a dropped key that another line sets comes back (both are in `FileRoundTrip`);
  each save adds a line feed (`SavingAddsFeed`); and a file that is emptied and restored stays unloaded
  (`ParseText`, `EmptiedAndRestored`); in both forms a line that sets nothing loses a carriage return at its end
  (`OthersThroughFile`);
* kdump targets whose path holds another "://" read back as something else (`LocalRoundTrip` and its neighbours).

`dafny verify dfyconfig.toml` checks everything.

## Model

| member | source | states |
|---|---|---|
| `Blocks.InsertIsOverwrite` | pkg/lib/cockpit.js:641-684 | Putting a non-empty block into the cache overwrites the timestamp map on the block's range, and leaves the blocks disjoint, if and only if no stored block reaches strictly past both of its ends |
| `Blocks.LastIsGone` | pkg/lib/cockpit.js:659-664 | In the bad case the hole closes: the last timestamp of the block around the new one vanishes from the cache |
| `Blocks.EvictionIsMinimal` | pkg/lib/cockpit.js:689-697 | Expiry drops a prefix of the blocks in order of arrival, reaches the limit, and no shorter prefix would |
| `Blocks.DropView` | pkg/lib/cockpit.js:689-697 | Dropping the oldest blocks removes exactly their timestamps from the map |
| `Blocks.StashRefinesMap` | pkg/lib/cockpit.js:631-704 | A fitting stash is the old map overwritten on [beg, end), less exactly what the evicted blocks held, disjoint again and within the limit; with room nothing is evicted |
| `Blocks.StashOverwrites` | pkg/lib/cockpit.js:631-704 | Every cell after a stash is the new block's on its range and an unchanged old one elsewhere |
| `SeriesIndex.InsertAlmost` | pkg/lib/cockpit.js:641-687 | Inserting at the slot of the search into a trimmed index is ordered but for empty entries, which all lie where the clean-up loop looks |
| `SeriesIndex.SameTotal` | pkg/lib/cockpit.js:536-538 | An index and a list without repetitions that both have all non-empty entries hold equally many items |
| `SeriesSinks.SeriesSink.Search` | pkg/lib/cockpit.js:553-568 | Binary search: every start before the slot is at most `beg`, every one from it on at least `beg`, and no equal start lies before the slot unless the slot itself has it |
| `SeriesSinks.SeriesSink.CutOut` | pkg/lib/cockpit.js:645-664 | Splicing one entry in place is trimming its block, and `count` stays the items on the list |
| `SeriesSinks.SeriesSink.TrimOverlaps` | pkg/lib/cockpit.js:639-668 | The walk that starts one entry before the slot and stops early trims every overlapping entry of the whole index |
| `SeriesSinks.SeriesSink.Append` | pkg/lib/cockpit.js:670-679 | The new entry goes into the index at the slot and to the end of the linked list |
| `SeriesSinks.SeriesSink.Tidy` | pkg/lib/cockpit.js:681-687 | Removing empty entries around the slot while stepping leaves the index sorted and non-overlapping, empty entries included |
| `SeriesSinks.SeriesSink.ExpireOldest` | pkg/lib/cockpit.js:689-697 | The loop along the linked list empties exactly the minimal prefix of oldest blocks |
| `SeriesSinks.SeriesSink.DropLeading` | pkg/lib/cockpit.js:699-703 | Only leading empty entries leave the index, and the first one left has items |
| `SeriesSinks.SeriesSink.Stash` | pkg/lib/cockpit.js:631-704 | The in-place code is the stash on values for every input; accounts always hold afterwards, and index order holds too if the block fits |
| `SeriesSinks.SeriesSink.CountIsIndexTotal` | pkg/lib/cockpit.js:536-538 | `count`, kept along the list, is also the number of items in the index |
| `SeriesSinks.SeriesSink.IndexIsMap` | pkg/lib/cockpit.js:536-551 | List and index stand for one and the same map of timestamps |
| `SeriesSinks.SeriesSink.WalkIndex` | pkg/lib/cockpit.js:592-628 | The walk divides [beg, end) into ascending non-empty pieces with the cached cells and ascending non-empty gaps with exactly the timestamps that are not cached, and rows show exactly the pieces |
| `SeriesSinks.SeriesSink.Fetch` | pkg/lib/cockpit.js:570-581 | A request is logged; unless walking, a placeholder that always fits is stashed first |
| `SeriesSinks.SeriesSink.Load` | pkg/lib/cockpit.js:583-629 | For every range: the division, the rows, the placeholders, the requests in order, and nothing cached is changed |
| `SeriesSinks.SeriesSink.LoadAgain` | pkg/lib/cockpit.js:570-629 | If the cache has room for what is missing, a load caches the whole range without touching another block, and any further load of any part of it, walking or not, asks for nothing |
| `SeriesSinks.SeriesSink.Process` | pkg/lib/cockpit.js:729-782 | Each row of each grid gets the items that fall into its window, at their own offsets, and keeps every other cell |
| `SeriesSinks.SeriesSink.Input` | pkg/lib/cockpit.js:784-787 | New data reach rows and cache alike: a grid that agreed with the cache still does, if the block fits |
| `SeriesSinks.Grid.Add` | pkg/lib/cockpit.js:850-884 | A new row is empty and its grid is registered with the sink once |
| `SeriesSinks.Grid.MoveInternal` | pkg/lib/cockpit.js:937-955 | After a move cell k of every row is the projection of the item cached for beg + k before the call and unset elsewhere, and the grid agrees with the cache |
| `SeriesSinks.Grid.Sync` | pkg/lib/cockpit.js:920-932 | Loading the window shows what is cached in it and changes no cell outside |
| `JsValues.Select` | pkg/lib/cockpit.js:755-771 | The loop along a path with its mapping follows the recursive projection |
| `Ranges.IndexAgrees` | pkg/lib/cockpit.js:592-606 | Ordered entries and the list tell the same cell for every timestamp |
| `Ranges.ScanFinish` | pkg/lib/cockpit.js:600-628 | Starting at one entry before the slot misses no overlapping block |
| `Ranges.FilledGaps` | pkg/lib/cockpit.js:570-581 | Each placeholder fits when its turn comes, and placeholders only appear in gaps |
| `Ranges.FilledIsAppended` | pkg/lib/cockpit.js:570-581 | With room, placeholders are simply added: nothing is trimmed or expires |
| `Ranges.GapSizes` | pkg/lib/cockpit.js:624-628 | The sizes of the gaps add up to the number of uncached timestamps |
| `Ranges.LoadFillsRange` | pkg/lib/cockpit.js:583-629 | With room for what is missing, nothing of the range stays uncached |
| `Ranges.NothingMissing` | pkg/lib/cockpit.js:583-629 | A range that is cached has no gaps |
| `Frames.ExpandExact` | pkg/lib/cockpit.js:3053-3077 | A frame expands to the original if and only if the sender left out or nulled only values equal to the previous frame's |
| `Frames.ExpandAllExact` | pkg/lib/cockpit.js:3050-3085 | Every transmission with a complete first frame expands to the originals |
| `Frames.MessageExact` | pkg/lib/cockpit.js:3050-3085 | However a transmission is cut into messages, each message expands to its part of the originals |
| `Frames.ExpandAllSplit` | pkg/lib/cockpit.js:3050-3085 | Expanding two runs of frames one after the other is expanding them together |
| `Metrics.Instances.FillFrom` | pkg/lib/cockpit.js:3066-3071 | Filling an instance list in place takes nulls and the missing end from the last one |
| `Metrics.Frame.ExpandSlotFrom` | pkg/lib/cockpit.js:3057-3073 | One slot in place, sharing the last frame's list where it was left out, throwing where reading a length throws |
| `Metrics.Frame.ExpandFrom` | pkg/lib/cockpit.js:3055-3076 | All slots in place, against a frame whose lists are shared but never written |
| `Metrics.MetricsChannel.OnMeta` | pkg/lib/cockpit.js:3037-3048 | A meta message, timed by the clock or not, sets the time of the next frame to the block of its timestamp and is handed to the callback with it; the last frame stays |
| `Metrics.ParseMessage` | pkg/lib/cockpit.js:3033-3034 | A parsed message shares nothing with what was there and shows its payload |
| `Metrics.Receive` | pkg/lib/cockpit.js:3033-3085 | A payload that can be expanded is in the callback's hands on top of all earlier frames, which still show what they did |
| `Metrics.ReceiveAll` | pkg/lib/cockpit.js:3033-3085 | However a transmission is cut into messages, none throws, and at the end all frames the callback has show the originals: each message is one delivery of its own frames, at the time of the meta message plus the frames before it |
| `Metrics.MetricsChannel.OnData` | pkg/lib/cockpit.js:3050-3085 | A message is expanded, delivered and counted, deliveries stay contiguous and in step with the timestamp of the meta message, and no frame that came in before changes although lists are shared |
| `FileModify.TagNamesContent` | pkg/base1/test-file.js:226-258 | Equal tags name equal contents: what makes comparing tags enough |
| `FileModify.StepInv` | pkg/lib/cockpit.js:2188-2332 | Every step of every call or outside writer keeps the invariant |
| `FileModify.RunInv` | pkg/lib/cockpit.js:2188-2332 | So does every run |
| `FileModify.NoLostUpdate` | pkg/lib/cockpit.js:2299-2332 | In every run each version is its writer's doing on exactly the version before, and a call that resolved made exactly one version, its callback's answer to the content just before it when it was told a real version |
| `FileModify.NoTagLosesUpdate` | pkg/lib/cockpit.js:2326-2330 | Called with a content but no tag, a run overwrites a version unseen |
| `FileModify.UnreadKeeps` | pkg/lib/cockpit.js:2299-2332 | A call with a content that is no version named by its tag, with any tag or none, keeps the last update in every run if and only if its callback makes the same of that content and of every one its replace can find |
| `FileModify.NoTagKeeps` | pkg/lib/cockpit.js:2326-2330 | Without a tag: if and only if the callback's answer does not depend on the content |
| `FileModify.WrongContentKeeps` | pkg/lib/cockpit.js:2326-2330 | With the current tag but another content: if and only if the callback makes the same of both |
| `FileModify.ConflictsAreForeign` | pkg/lib/cockpit.js:2310-2316 | In every run a call has at most as many conflicts as others made versions since its first read began, one more for each retry that joined an older read and one for a stale initial content, and never more than twice as many; its steps are bounded by its conflicts |
| `FileModify.JoinedReadRefused` | pkg/lib/cockpit.js:2189-2190 | One version can refuse a call twice if its retry joins a read that was opened right after its own was done |
| `FileModify.NeverStuck` | pkg/lib/cockpit.js:2302-2331 | A call that is not settled can always go on without failing, and each of its steps is counted |
| `FileHandles.FileHandle.Modify` | pkg/lib/cockpit.js:2299-2332 | Calling `modify` is the step of the model, after the abort of a replace that is under way if it replaces at once |
| `FileHandles.FileHandle.Read` | pkg/lib/cockpit.js:2188-2216 | A read is opened only if none is under way, which keeps every call on track |
| `FileHandles.FileHandle.ReadThenUpdate` | pkg/lib/cockpit.js:2188-2216 | A call joins the read that is under way, and opens one only if there is none |
| `FileHandles.FileHandle.Happens` | pkg/lib/cockpit.js:2188-2332 | Whatever other handles, other writers or the server do in between keeps every call on track |
| `FileHandles.FileHandle.OnReadClose` | pkg/lib/cockpit.js:2203-2240 | The end of a read is the same step for every call that waits for it, with the version that was delivered, and each has its answer |
| `FileHandles.FileHandle.OnReplaceClose` | pkg/lib/cockpit.js:2270-2278 | The end of a replace is the answer to its call, and a failure of the call if it is a problem |
| `FileHandles.FileHandle.CallBack` | pkg/lib/cockpit.js:2302-2325 | Running a callback is what the model says: replace what was read, settle the call, or try again with an enabled step |
| `FileHandles.RetryIsOk` | pkg/lib/cockpit.js:2189-2190 | The read that a retry joins was opened after the call's last read was done |
| `FileHandles.ResolvedIsMade` | pkg/lib/cockpit.js:2299-2332 | What a call's promise is resolved with is the content and tag of the version it made, its callback's answer to the content just before when it was told a real version |
| `Upload.BlockReader.Read` | pkg/lib/cockpit-upload-helper.ts:114-135 | Each read returns at most BLOCK_SIZE bytes from the front of what is left |
| `Upload.ReadAll` | pkg/lib/cockpit-upload-helper.ts:106-136 | For every chunking of the stream the blocks together are its bytes, and their number is the sum over the chunks, empty trailing blocks included |
| `Upload.StepInv` | pkg/lib/cockpit-upload-helper.ts:74-92 | Every ack, close, read, wake-up or abort keeps the window, the prefix and the reason to sleep |
| `Upload.UploadIsSafe` | pkg/lib/cockpit-upload-helper.ts:141-171 | In every run outstanding is sent less acknowledged and below FLOW_WINDOW + BLOCK_SIZE, what was sent is a prefix of the file, done comes once and last, and a sleeping loop still has its reason to sleep |
| `Upload.Uploader.OnAck` | pkg/lib/cockpit-upload-helper.ts:74-87 | The handler is the step on an acknowledgement, with the wake-up of a sleeping loop |
| `Upload.Uploader.OnClose` | pkg/lib/cockpit-upload-helper.ts:88-92 | The handler is the step on a close |
| `Upload.Uploader.RunLoop` | pkg/lib/cockpit-upload-helper.ts:141-167 | The loop is the step from its condition to what it awaits |
| `Upload.Uploader.OnRead` | pkg/lib/cockpit-upload-helper.ts:150-170 | The rest of the iteration after a read is an enabled step, and the reader has one block less |
| `Upload.Uploader.OnWake` | pkg/lib/cockpit-upload-helper.ts:166-170 | Being woken up leads back to the condition of the loop, or to the abort |
| `Percent.EncodeDecode` | pkg/lib/cockpit.js:1206-1206 | Percent-encoding any bytes and decoding gives them back |
| `Percent.ReplaceDecodes` | pkg/lib/cockpit.js:1210-1214 | Replacing an escape by its character neither makes nor breaks another escape in any text |
| `Percent.SplitReplace` | pkg/lib/cockpit.js:1210-1214 | Nor does it move the places where the text is split |
| `Strings.SplitJoin` | pkg/lib/cockpit.js:1176-1206 | Splitting what was joined gives the parts back |
| `Locations.Location.ResolvePathDots` | pkg/lib/cockpit.js:1157-1173 | The loop is the fold of single parts, and fails where ".." has nothing before it |
| `Locations.Location.Decoding` | pkg/lib/cockpit.js:1175-1200 | The method is the path reading for every input, with the places where the code throws |
| `Locations.Location.DropRootFrom` | pkg/lib/cockpit.js:1191-1197 | The loop takes the root off exactly if the parts begin with it |
| `Locations.Location.Encoding` | pkg/lib/cockpit.js:1202-1233 | The method is the writing of a location |
| `Locations.Location.Reading` | pkg/lib/cockpit.js:1235-1261 | The method is the reading of a location with its options |
| `Locations.ResolvedIsPlain` | pkg/lib/cockpit.js:1157-1173 | Reading never leaves an empty part, "." or ".." |
| `Locations.UndoDecodes` | pkg/lib/cockpit.js:1210-1214 | The four un-escapings together change neither the decoded parts nor the first slash |
| `Locations.PathRoundTrip` | pkg/lib/cockpit.js:1175-1214 | A path comes back if and only if no part is empty, "." or ".." and it does not begin with the root's parts |
| `Locations.RootedRoundTrip` | pkg/lib/cockpit.js:1206-1208 | Written under any root a path comes back if and only if it is plain, its address did not already begin with the root's text, and the root is plain or resolves to nothing |
| `Locations.OptionsRoundTrip` | pkg/lib/cockpit.js:1216-1258 | Options come back as meant if and only if each is a text or a list of two values whose first is not empty |
| `Locations.LocationRoundTrip` | pkg/lib/cockpit.js:1202-1261 | The whole location comes back if and only if its path and its options do |
| `Locations.RootedLocationRoundTrip` | pkg/lib/cockpit.js:1202-1261 | The same for a location written under its root |
| `DBusCalls.NextKeepsInv` | pkg/lib/cockpit.js:1854-2065 | Every event keeps each cookie given out for a request either pending or settled once, and nothing pending after close |
| `DBusCalls.RunKeepsInv` | pkg/lib/cockpit.js:1854-2065 | So does every run |
| `DBusCalls.SettledByFate` | pkg/lib/cockpit.js:1854-2065 | In every run a request made while open is told the first event that concerns it and nothing else, one made later is told at once why the client was closed |
| `DBusCalls.CookiesDiffer` | pkg/lib/cockpit.js:1983-2065 | No two requests share a cookie, and none shares one with a subscription |
| `DBusCalls.LateRepliesChangeNothing` | pkg/lib/cockpit.js:1865-1884 | A reply or error for a cookie that is not pending changes nothing |
| `DBusCalls.ClosedForGood` | pkg/lib/cockpit.js:1944-1981 | After a close or a garbled message the client stays closed with nothing pending |
| `DBusCalls.DBusClient.CallMethod` | pkg/lib/cockpit.js:1985-2002 | The method is the step on a call |
| `DBusCalls.DBusClient.StartWatch` | pkg/lib/cockpit.js:2043-2056 | The method is the step on a watch |
| `DBusCalls.DBusClient.RemoveWatch` | pkg/lib/cockpit.js:2057-2063 | Cancelling settles a watch only while it is pending |
| `DBusCalls.DBusClient.OnMessage` | pkg/lib/cockpit.js:1854-1884 | The handler is the step on a message, whatever its cookie |
| `DBusCalls.DBusClient.AddSubscriber` | pkg/lib/cockpit.js:2013-2028 | A subscription takes a cookie exactly if it has a callback |
| `DBusCalls.DBusClient.OnGarbled` | pkg/lib/cockpit.js:1854-1864 | A message that cannot be parsed closes the channel |
| `DBusCalls.DBusClient.OnClose` | pkg/lib/cockpit.js:1970-1977 | The handler is the step on a close |
| `DBusCalls.DBusClient.PerformClose` | pkg/lib/cockpit.js:1944-1952 | The loop tells every outstanding call the same, once |
| `DBusCaches.CacheIsFold` | pkg/lib/cockpit.js:1566-1581 | Each interface at each path holds the fold of merges and removals of its notices |
| `DBusCaches.DeliverMirrors` | pkg/lib/cockpit.js:1554-1564 | One call makes its target mirror the cache and spoils no other |
| `DBusCaches.EmitMirrors` | pkg/lib/cockpit.js:1554-1564 | After k calls along the copy only targets further on are still waiting, although calls add proxies and callbacks |
| `DBusCaches.NotifyMirrors` | pkg/lib/cockpit.js:1928-1940 | After a notification every proxy and collection mirrors the cache |
| `DBusCaches.NewProxyMirrors` | pkg/lib/cockpit.js:1693-1706 | A new proxy mirrors the cache at once |
| `DBusCaches.NewGroupMirrors` | pkg/lib/cockpit.js:1770-1787 | A new collection has proxies for exactly the paths with its interface |
| `DBusCaches.RunMirrors` | pkg/lib/cockpit.js:1527-1602 | After any run a proxy is valid if and only if its interface is cached and then has every cached property, a collection has exactly the cached paths, and the cache is the fold of all notices |
| `DBusCaches.NoticeReported` | pkg/lib/cockpit.js:1770-1784 | Every report of a collection is of the notice's interface and path and finds the proxy already as it should be; no change and no removal of a proxy it had goes unreported |
| `DBusCaches.ExactAfterUpdate` | pkg/lib/cockpit.js:1693-1703 | After an update a proxy has exactly the cached properties if and only if it had none but those that were cached before or came with the update |
| `DBusCaches.RunEver` | pkg/lib/cockpit.js:1693-1706 | After any run a proxy has just the properties that were ever cached at its path and interface since it was made |
| `DBusCaches.ExactAfterRun` | pkg/lib/cockpit.js:1693-1706 | After any run a valid proxy has exactly the cached properties if and only if every property that was cached for it since it was made still is |
| `DBusCaches.StaleProperty` | pkg/lib/cockpit.js:1693-1703 | An interface that goes and comes back with fewer properties leaves the others in its valid proxy |
| `DBusCaches.DBusCache.Connect` | pkg/lib/cockpit.js:1534-1539 | First callbacks go to the front, others to the end |
| `DBusCaches.DBusCache.UpdateProxy` | pkg/lib/cockpit.js:1693-1703 | The update of one proxy |
| `DBusCaches.DBusCache.NewProxy` | pkg/lib/cockpit.js:1693-1706 | Connecting in front and looking itself up keeps everything mirrored |
| `DBusCaches.DBusCache.UpdateGroup` | pkg/lib/cockpit.js:1770-1784 | The update of one collection, which may create a proxy |
| `DBusCaches.DBusCache.EmitAll` | pkg/lib/cockpit.js:1554-1564 | The loop over the copy of the callbacks leaves everything mirrored |
| `DBusCaches.DBusCache.UpdateProps` | pkg/lib/cockpit.js:1566-1574 | Merging and emitting |
| `DBusCaches.DBusCache.RemoveProps` | pkg/lib/cockpit.js:1576-1581 | Removing and emitting, also where only the path is known |
| `DBusCaches.DBusCache.OnNotify` | pkg/lib/cockpit.js:1928-1940 | The loops of a notification are the fold of its notices |
| `DBusCaches.DBusCache.NewGroup` | pkg/lib/cockpit.js:1786-1787 | Connecting and going through all paths |
| `Ticks.Largest` | pkg/lib/cockpit-components-plot.jsx:127-133 | The maximum of the minimum and the last plot's values, where a missing or zero first value gives way to the second |
| `Ticks.UnitFor` | pkg/lib/cockpit-components-plot.jsx:141-143 | The highest power of the base below the maximum, or one |
| `Ticks.Log10FloorIs` | pkg/lib/cockpit-components-plot.jsx:158-158 | The exponent is that of the highest power of ten not above the number, for every positive number |
| `Ticks.SpacingSteps` | pkg/lib/cockpit-components-plot.jsx:158-183 | The distance covers the maximum in one to seven steps, and in at least three unless it is below ten units |
| `Ticks.SpacingWhole` | pkg/lib/cockpit-components-plot.jsx:158-183 | For a label from one up it is a whole number of units |
| `Ticks.SizeFor` | pkg/lib/cockpit-components-plot.jsx:158-183 | The doubling and halving loops reach exactly the closed form of the distance |
| `Ticks.AxisFor` | pkg/lib/cockpit-components-plot.jsx:192-194 | Ascending multiples of the size, the last one at least the maximum and less than a size above it |
| `Ticks.AxisBounds` | pkg/lib/cockpit-components-plot.jsx:141-194 | Two to eight ticks, four at least unless they are fewer than ten units apart, and a whole number of units apart for a label from one up |
| `Ticks.ValueTicks` | pkg/lib/cockpit-components-plot.jsx:126-194 | The whole value axis: ticks for every positive maximum, and none for any other |
| `Ticks.TimeSize` | pkg/lib/cockpit-components-plot.jsx:45-67 | The smallest listed distance with fewer than ten steps, or the largest of all |
| `Ticks.TimeTicksAreMultiples` | pkg/lib/cockpit-components-plot.jsx:87-92 | The ticks are the multiples of the size in the plotted time, all of them and nothing else |
| `Ticks.TimeTicksAreFew` | pkg/lib/cockpit-components-plot.jsx:61-92 | A span of fewer than ten steps has at most ten ticks |
| `Ticks.TimeTicks` | pkg/lib/cockpit-components-plot.jsx:38-92 | The whole time axis |
| `ConfigText.TrimIs` | pkg/kdump/config-client.js:100-107 | Trimming cuts white space off both ends and nothing else |
| `ConfigText.LinesRoundTrip` | pkg/kdump/config-client.js:91-91 | Lines written with line feeds come back if and only if none ends in a carriage return |
| `ConfigText.LinesOfJoined` | pkg/kdump/config-client.js:91-91 | Lines that are joined, the last one empty, are read again without a carriage return at the end of any |
| `LineDeletion.RemovesRight` | pkg/kdump/config-client.js:339-343 | Deleting by the original numbers takes out the right elements if and only if it goes from the highest number down |
| `LineDeletion.SomethingStays` | pkg/kdump/config-client.js:339-343 | In any other order some line that should go stays |
| `LineDeletion.SortedDescends` | pkg/kdump/config-client.js:340-340 | Sorting as texts and reversing gives descending numbers if and only if among them a lower number has the lower text |
| `LineDeletion.SortingRemovesRight` | pkg/kdump/config-client.js:339-343 | So the right lines are deleted if and only if that is so |
| `LineDeletion.RemovesTaken` | pkg/kdump/config-client.js:339-343 | Deleting in any order leaves out exactly the lines with the numbers that are really taken out |
| `LineDeletion.SortingTakesRight` | pkg/kdump/config-client.js:339-343 | These are the numbers to delete if and only if that is so |
| `LineDeletion.EqualDigitsAgree` | pkg/kdump/config-client.js:340-340 | Numbers with equally many digits are safe |
| `LineDeletion.NineAndTen` | pkg/kdump/config-client.js:340-340 | Deleting lines 9 and 10 of any longer file takes out a wrong line |
| `KdumpConfig.LineRoundTrip` | pkg/kdump/config-client.js:100-123 | A setting written as a line reads back as itself if and only if its key, value and comment are good |
| `ConfigLines.ParseIsFaithful` | pkg/kdump/config-client.js:99-123 | Reading finds a key exactly if a line sets it, and the last such line counts |
| `KdumpConfig.WrittenIs` | pkg/kdump/config-client.js:310-338 | The lines after the in-place edits, line by line |
| `KdumpConfig.ToDeleteIs` | pkg/kdump/config-client.js:312-322 | The lines to delete are those of the dropped settings without comments, each once |
| `KdumpConfig.SettingsReadBack` | pkg/kdump/config-client.js:307-345 | For any settings, the edited lines hold exactly what was written if and only if, going by the line numbers really taken out, the right lines of every key stay. Where the texts of the numbers to delete agree with their order that is so exactly if nothing is left over of dropped settings and of those without a value whose line had no comment; where they do not it is never so, unless a setting is erased with its line |
| `KdumpConfig.WrongLineShows` | pkg/kdump/config-client.js:339-343 | Where the texts do not agree a dropped setting is still there to be read, unless one is erased |
| `KdumpConfig.FileRoundTrip` | pkg/kdump/config-client.js:70-131 | The same from the text of the file to the text that is written and read again |
| `KdumpConfig.OthersSurvive` | pkg/kdump/config-client.js:307-345 | Lines that set nothing survive unchanged and in order, and only dropped settings with comments join them; none is lost where the texts of the numbers to delete agree with their order, and otherwise those really taken out are |
| `KdumpConfig.OthersThroughFile` | pkg/kdump/config-client.js:70-131 | What is left of the lines that set nothing is read again, with an empty line behind, without a carriage return at the end of any: the same if and only if none of them has one |
| `KdumpConfig.OthersUnchanged` | pkg/kdump/config-client.js:312-322 | Without dropped comments the lines that set nothing are just the same |
| `KdumpConfig.SavingAddsFeed` | pkg/kdump/config-client.js:345-345 | Saving the settings of any text just as they were read adds a line feed to it, every time and whatever it makes of the lines, and the same settings are read again |
| `KdumpConfig.EditAddsFeed` | pkg/kdump/config-client.js:307-345 | So does every edit that deletes no line and adds none |
| `KdumpConfig.SavingKeepsLines` | pkg/kdump/config-client.js:307-345 | Where no line is written differently, the text is its lines and a line feed behind each |
| `KdumpConfig.SavingAddsLine` | pkg/kdump/config-client.js:345-345 | If it has no carriage returns either, it is the old text and a line feed |
| `KdumpConfig.ConfigFile.ParseText` | pkg/kdump/config-client.js:70-131 | After a text the file is loaded if and only if the text is not empty and the file was loaded or the text is not the last one; a new text is taken in |
| `KdumpConfig.ConfigFile.EmptiedAndRestored` | pkg/kdump/config-client.js:73-89 | A file that is emptied and gets its old text back stays unloaded |
| `KdumpConfig.ConfigFile.GenerateConfig` | pkg/kdump/config-client.js:307-346 | The method is the editing of the lines |
| `ConfigLines.OthersReadAgain` | pkg/kdump/config-client.js:91-107 | The lines that set nothing are read again without carriage returns at their ends, the same if and only if they had none |
| `ConfigLines.WrittenReads` | pkg/kdump/config-client-suse.js:239-258 | A setting that is written reads back, and any other one reads as before |
| `ConfigLines.WrittenOthers` | pkg/kdump/config-client-suse.js:239-258 | Lines that set nothing stay the same |
| `KdumpSuse.LineRoundTrip` | pkg/kdump/config-client-suse.js:67-108 | A line reads back with its key, value and suffix if and only if they are good, in quotes or without |
| `KdumpSuse.FileRoundTrip` | pkg/kdump/config-client-suse.js:41-108 | From the text of the file over an edit to the text that is written and read again, for every key |
| `KdumpSuse.OthersThroughFile` | pkg/kdump/config-client-suse.js:41-108 | The lines that set nothing, and an empty one that a text without a last line feed gains, are read again without a carriage return at the end of any: the same if and only if none in the file had one |
| `KdumpSuse.WithTargetIs` | pkg/kdump/config-client-suse.js:193-219 | Putting a target into the settings is saving it |
| `KdumpSuse.TargetThroughFile` | pkg/kdump/config-client-suse.js:193-264 | What is saved for a target is what the written file says, whatever the compression |
| `KdumpSuse.PersistedIs` | pkg/kdump/config-client-suse.js:193-233 | Putting target and compression into the settings is saving the one and choosing the other, and removes none of their keys |
| `KdumpSuse.CompressionThroughFile` | pkg/kdump/config-client-suse.js:170-233 | The compression that is wanted is what the written file says if and only if the file said otherwise or the settings say so already |
| `KdumpSuse.LocalThroughFile` | pkg/kdump/config-client-suse.js:193-264 | A local target comes back through the file if and only if its path is absolute and holds no other location |
| `KdumpSuse.ConfigFileSUSE.ParseText` | pkg/kdump/config-client-suse.js:41-108 | The method takes in a text unless it is the last one |
| `KdumpSuse.ConfigFileSUSE.GenerateConfig` | pkg/kdump/config-client-suse.js:234-264 | The method is the writing of the lines, with target and compression put into the settings first |
| `KdumpTargets.ApartIs` | pkg/kdump/config-client-suse.js:131-132 | What a location is taken apart into puts it together again |
| `KdumpTargets.ApartRoundTrip` | pkg/kdump/config-client-suse.js:131-132 | The parts of a location come back if and only if no other location begins in server and path |
| `KdumpTargets.LocalRoundTrip` | pkg/kdump/config-client-suse.js:124-174 | A local target survives saving and reading if and only if its path is absolute and holds no other location |
| `KdumpTargets.NfsRoundTrip` | pkg/kdump/config-client-suse.js:124-174 | An nfs target comes back with its path merged into its export, exactly under these conditions |
| `KdumpTargets.RemoteRoundTrip` | pkg/kdump/config-client-suse.js:124-174 | Any other target comes back, with its key, exactly under these conditions |

## Left out

Of the series cache and its grids:

- `SeriesSinks.SeriesSink.Stash`: entries are numbers into sequences that the sink holds rather than objects on a heap, so that in-place changes are changes of the sink's fields; the items array of a caller is a value and not shared with it.
- Sinks that share an index through an identifier: `count` is kept per sink while the index is shared, and the accounting does not hold there. The larger limit of 64 * 1024 goes with identifiers.
- Fetch callbacks that call back into the sink at once; a request is an entry in a log.
- `SeriesSinks.Grid.Sync`: several sinks on one grid, each of which the code loads in turn, and notifications.
- Rows computed by functions, `notify` events and their suppression, removing rows and sinks, the check for equal intervals.
- `SeriesSinks.Grid.MoveInternal`: the negative and missing arguments of `move`, which are turned into times of the clock first, and the timer of `walk`.

Of the metrics channel:

- `Metrics.MetricsChannel.OnMeta`: times that are not whole numbers, and the event for a changed meta message.
- Slots that are strings.
- `drain` and the mapping of metrics and instances into a series sink.

Of `cockpit.file`:

- `FileModify.NoLostUpdate`: syntax parsers that throw, callbacks that throw, binary contents and the size limit; each would only reject the call. `NeverStuck` says that failing is never the only way on.
- `FileHandles.FileHandle.CallBack`: the order in which promises call back is any; callbacks that make calls of their own on the handle at once.
- Watching a file and closing the handle. A plain `replace` is a problem of the one under way and a version made elsewhere.

Of the upload:

- `Upload.UploadIsSafe`: a peer that acknowledges more than it was sent.
- Whether an abort wakes a sleeping loop: the listener is given the waiter's first, empty function.
- Progress callbacks and closing the channel after a failure.

Of the D-Bus client:

- `DBusCalls.SettledByFate`: what promise callbacks do; they run later. Variants of replies (types and flags) and the wording of errors.
- Signals, subscriptions and matching, property setters, methods defined on proxies from meta data, owner tracking.
- `DBusCaches.RunMirrors`: listeners that change the cache while it emits, constructors other than the default one, and a proxy's own "changed" events. The path namespace of a collection is not looked at by the code and is not modelled.
- Disconnecting a callback (the code deletes from the wrong array) and closing a cache (it calls a field that is not there); nothing calls them.

Of locations:

- `Locations.LocationRoundTrip`: texts to encode are given as their bytes, so UTF-8 and lone surrogates are outside; option names that are properties of every JavaScript object; values that are not strings.
- `Locations.RootedLocationRoundTrip`: roots with a "?", at which reading would cut the address.
- Navigation, history and the listener for hash changes; paths given as strings to `encode`, which are read first.

Of the plots:

- `Ticks.ValueTicks`: rounding of floating-point numbers; a base unit of one with a maximum above one, for which the loop does not end.
- Labels, units in words and dates.

Of the kdump configuration:

- `KdumpConfig.ConfigFile.GenerateConfig`: the settings are those after the target has been put into them: finding targets in the ini form and putting them and `core_collector` back (lines 141-303), whose test for known keys looks at array positions; settings named like properties of every JavaScript object.
- `KdumpTargets.LocalRoundTrip`: locations with line terminators, which no line of a file can hold; there the pattern of the code would not match.
- Events for changed settings.

Channels, transports, WebSockets, PackageKit, SSH and password dialogs, spawned processes, HTTP, storage caches, React
components and everything that only shows things are not part of these models.
