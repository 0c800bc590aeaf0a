# Vistle user interface: verified models

Models of the parts of the Vistle user interface and of its field remapping that hold real algorithms and state
machines, with proofs of what they promise. Widgets, files and processes are opaque numbers or strings; a signal is an
entry in a log or a call; the network, the clock and the file system are parameters.

| files | subject |
|---|---|
| `GridAgreement`, `GridLayouts`, `PropertyTree`, `PropertyRoundTrips`, `PropertyEffects`, `RecomputedGrids`, `PropertyBrowser` | the property browser: a tree of items mirrored, edit by edit, in one grid per container |
| `LookupProtocol` | the remote file gatherer: requests and replies, two tables of outstanding queries |
| `WorkerQueue`, `UpdateBatches` | the local file gatherer: its queue and the batches it sends |
| `SlotSearch`, `ConnectionTable`, `CompoundExport` | the data-flow network: free slots, connections, export of a sub-graph |
| `MoveInsert`, `MoveResults`, `SidebarUrls` | the side bar: moving insertion of bookmarks |
| `PathHistory`, `QuotedNames` | the file dialog: back and forward, quoted names |
| `LongProperty`, `LongEditors`, `LongVectorProperty`, `LongVectorManager` | ranged integers, their spin boxes and vectors of them |
| `FieldRemap` | gather and scatter of fields |
| `StepSearch`, `RankedFilter` | the step of a spin box, the parameter search field |
| `Runs`, `Sorting` | runs of state machines; what the program relies on std::sort for |

Where the program updates objects, a class with methods and loops is proved equal to a function on states
(`ensures St() == F(old(St()), ...)`), and the properties are lemmas about these functions and about runs of them. For
every such function some lemma says what it does in terms of the state alone (`InsertItem`, `FilesAsked`, `BoxStores`,
`InitializeResult`, `ExportIs` and so on), so that a row with "the function on states" means what that lemma says.

## What turned out differently from what one would expect

- Property browser: an item whose last child goes while it is expanded stays marked as expanded without a container
  (`vistlebuttonpropertybrowser.cpp:419-444`). The next child it gets breaks the agreement of grid and tree; `InsertInv`
  and `AgreeThroughoutIff` give the exact condition, `StuckOpenExample` a run. The box with label and button of a vector property stays in the
  grid when its container goes: the grids are the recomputed ones exactly as long as no vector loses its last child
  (`StepRecomputedIff`, `ThroughoutIff`, `BoxLostExample`).
- Connections: `deletePort` compares the name of the first end where the second is meant (`dataflownetwork.cpp:282`);
  `DeletePortIff` says exactly when it still does what it should, and `RunAttachedIff` when a connection outlives its
  port (`DeletePortExample`).
- Free-slot search: with a key that is not an arrow the offset is zero, and the loop would not end if the last drop
  position is taken (`SlotExistsIff`); this is the precondition of `FindSlot`.
- Side bar: a list of bookmarks comes out in one piece wherever it is moved if every place in it is named no later than
  the first place that follows itself (`NamedFirstThen`), and only such a list does below enough other rows
  (`NamedFirstIff`); `MoveResult` has the exact condition for given rows, `TwinsExample` a list that is torn apart. A
  bookmark dropped on its own row moves up by one (`LandsOnRowIff`, `StepsBackExample`). Home and its directory can both
  be bookmarked before the server tells what home is (`RunDistinct`, `TwinBookmarksExample`).
- Spin boxes: the slots `setValue` and `setText` do not clip (`qlongspinbox.cpp:33-47`). A call of `setText` with a
  number that the manager clips to the value it has leaves the box with that number (`TypedIff`) until the property
  changes the next time (`StepHeals`). The user cannot cause this: what is entered is fixed up first (`FixedInRange`).
- Vectors: `setDimension` changes a copy of the data and never stores it (`RunDimension`), so every set that changes a
  vector announces its dimension again, unless that is 0 (`AnnouncedAgain`).
- Lookups: a lookup that fails leaves its names outstanding, and no later lookup reply reports its path as loaded
  (`FailureBlocks`); an empty listing still does.
- Local gatherer: the comment at `remotefileinfogatherer.cpp:318-321` promises an update at 100 items and every 200 ms; the
  code sends the first batch at 101 entries and goes by 1000 ms (`QuietClock`). The model follows the code. A directory
  whose listing is aborted is reported as loaded, too.
- Search field: the bonus for letters in order needs a place below 0 and never applies (`CountScore`).

## Model

| member | source | states |
|---|---|---|
| `RecomputedGrids.ReachableRows` | app/gui/propertybrowser/vistlebuttonpropertybrowser.cpp:95-127 | main result: in every state of every legal run, each item has exactly the cells it calls for, at its row (the sum of the spans before it), an open container one row below; sibling row ranges are disjoint and ordered; the spacer is at the total; a grid equals the one recomputed from the tree exactly if no stray box is in it, and always if no vector lost its last child in the run |
| `RecomputedGrids.ThroughoutIff` | app/gui/propertybrowser/vistlebuttonpropertybrowser.cpp:267-490 | main result: all grids equal the ones recomputed from the tree at every moment of a legal run if and only if no operation of the run removes the last child of a vector |
| `RecomputedGrids.StepRecomputedIff` | app/gui/propertybrowser/vistlebuttonpropertybrowser.cpp:267-490 | where all grids are the recomputed ones, they are so again after a legal operation if and only if it does not remove the last child of a vector |
| `RecomputedGrids.BoxLostExample` | app/gui/propertybrowser/vistlebuttonpropertybrowser.cpp:419-444 | a run into it: an item, a child that makes it a vector, and the child is removed |
| `RecomputedGrids.RunLost` | app/gui/propertybrowser/vistlebuttonpropertybrowser.cpp:325-337 | the boxes without an owner are never given back, and there are none exactly if no vector lost its last child |
| `RecomputedGrids.StepForgets` | app/gui/propertybrowser/vistlebuttonpropertybrowser.cpp:140-490 | no operation depends on boxes that were left behind |
| `PropertyTree.AgreeThroughoutIff` | app/gui/propertybrowser/vistlebuttonpropertybrowser.cpp:140-490 | main result: in a run of possible calls all grids agree with the tree at every moment if and only if no container is made for an item that is still marked as expanded |
| `PropertyTree.RunInv` | app/gui/propertybrowser/vistlebuttonpropertybrowser.cpp:140-490 | tree, grids and recreate queue stay consistent over every legal run of insert, remove, expand, editor loss and update |
| `PropertyTree.StepInv` | app/gui/propertybrowser/vistlebuttonpropertybrowser.cpp:140-490 | each operation on its own keeps that invariant |
| `PropertyTree.InsertInv` | app/gui/propertybrowser/vistlebuttonpropertybrowser.cpp:267-378 | propertyInserted keeps every grid in agreement with the tree exactly if the owner has a container already or is not marked as expanded |
| `PropertyTree.RemoveInv` | app/gui/propertybrowser/vistlebuttonpropertybrowser.cpp:380-448 | propertyRemoved keeps the agreement, with siblings left and for the last child, whose container goes |
| `PropertyTree.ExpandInv` | app/gui/propertybrowser/vistlebuttonpropertybrowser.cpp:170-199 | expanding and collapsing keep the agreement |
| `PropertyTree.DropEditorInv` | app/gui/propertybrowser/vistlebuttonpropertybrowser.cpp:129-138 | so does an editor that is destroyed |
| `PropertyTree.UpdateInv` | app/gui/propertybrowser/vistlebuttonpropertybrowser.cpp:140-168 | slotUpdate keeps the agreement and empties the recreate queue |
| `PropertyTree.StuckOpen` | app/gui/propertybrowser/vistlebuttonpropertybrowser.cpp:419-448 | removing the last child of an expanded item leaves the mark; setExpanded cannot clear it, and the next child breaks the agreement |
| `PropertyTree.StuckOpenExample` | app/gui/propertybrowser/vistlebuttonpropertybrowser.cpp:297-341 | such a run: insert an item, insert a child, expand, remove the child, insert a child |
| `PropertyTree.LeftBehind` | app/gui/propertybrowser/vistlebuttonpropertybrowser.cpp:419-444 | removing the last child of a vector always leaves its heading box in the grid of its owner |
| `PropertyEffects.InsertItem` | app/gui/propertybrowser/vistlebuttonpropertybrowser.cpp:267-378 | main result: wherever it is inserted, the new item has the owner, the editor and the value label that were asked for, a label of its own and no container; no other item changes, but an owner without a container gets one, with a button or with a new box |
| `PropertyEffects.InsertCells` | app/gui/propertybrowser/vistlebuttonpropertybrowser.cpp:343-371 | the grid of its owner has its label, its editor exactly if one was asked for, the same for its value label, and no button or container of it |
| `PropertyEffects.InsertOwner` | app/gui/propertybrowser/vistlebuttonpropertybrowser.cpp:297-341 | an owner that gets its container shows a button, or a box if it is a vector, in place of its label, and stays shut |
| `PropertyEffects.RemoveItem` | app/gui/propertybrowser/vistlebuttonpropertybrowser.cpp:380-448 | the item goes from its list; no other item changes, but an owner that loses its last child gives up its container, waits to be recreated, and leaves its box behind if it was a vector |
| `PropertyEffects.RemoveCells` | app/gui/propertybrowser/vistlebuttonpropertybrowser.cpp:380-448 | no grid has a cell of the removed item |
| `PropertyEffects.ExpandItem` | app/gui/propertybrowser/vistlebuttonpropertybrowser.cpp:170-199 | an item with a container is marked as asked for, and its container has a cell exactly if it is expanded; nothing else changes |
| `PropertyEffects.DropEditorItem` | app/gui/propertybrowser/vistlebuttonpropertybrowser.cpp:129-138 | the item has no editor and no editor cell any more; nothing else changes |
| `PropertyEffects.UpdateItem` | app/gui/propertybrowser/vistlebuttonpropertybrowser.cpp:140-168 | every item without a container has its label, in its cell too; nothing else changes, and nothing waits |
| `PropertyEffects.CellsShown` | app/gui/propertybrowser/vistlebuttonpropertybrowser.cpp:114-127 | which cells an item has, and that they are on its row, its open container one row below |
| `PropertyEffects.RowsFollow` | app/gui/propertybrowser/vistlebuttonpropertybrowser.cpp:95-127 | the first child is on row 0, and each one is one row below its predecessor, or two if that is open |
| `PropertyRoundTrips.InsertRemove` | app/gui/propertybrowser/vistlebuttonpropertybrowser.cpp:267-448 | removing the item that was just inserted among siblings, or into the main area, gives back the whole state |
| `PropertyRoundTrips.ExpandCollapse` | app/gui/propertybrowser/vistlebuttonpropertybrowser.cpp:170-199 | expanding and collapsing an item again gives back the whole state |
| `PropertyRoundTrips.InsertPlaces` | app/gui/propertybrowser/vistlebuttonpropertybrowser.cpp:280-292 | the new item is directly behind its predecessor, or first; the others keep their order, and no other list changes |
| `GridAgreement.AgreesIsRecomputed` | app/gui/propertybrowser/vistlebuttonpropertybrowser.cpp:95-119 | a grid that agrees with the tree is the recomputed grid plus the spacer if and only if no box was left behind |
| `GridAgreement.RowsOrdered` | app/gui/propertybrowser/vistlebuttonpropertybrowser.cpp:95-119 | row ranges of siblings are disjoint and ordered |
| `GridAgreement.InsertAgrees` | app/gui/propertybrowser/vistlebuttonpropertybrowser.cpp:363-371 | opening a row and adding the cells of a new item |
| `GridAgreement.RemoveAgrees` | app/gui/propertybrowser/vistlebuttonpropertybrowser.cpp:411-418 | taking out the cells of an item and closing its row |
| `GridAgreement.OpenAgrees` | app/gui/propertybrowser/vistlebuttonpropertybrowser.cpp:187-190 | opening a row for a container |
| `GridAgreement.CloseAgrees` | app/gui/propertybrowser/vistlebuttonpropertybrowser.cpp:191-195 | taking a container out and closing its row |
| `GridAgreement.ReheadAgrees` | app/gui/propertybrowser/vistlebuttonpropertybrowser.cpp:316-339 | the label of a new parent gives way to a button, or to a box with label and button |
| `GridAgreement.RelabelAgrees` | app/gui/propertybrowser/vistlebuttonpropertybrowser.cpp:144-166 | a waiting item gets a label cell again |
| `GridAgreement.FoldAgrees` | app/gui/propertybrowser/vistlebuttonpropertybrowser.cpp:428-441 | button and container of a parent go with its last child |
| `GridAgreement.FoldLeavesBox` | app/gui/propertybrowser/vistlebuttonpropertybrowser.cpp:431-441 | folding a vector parent never leaves a tidy grid |
| `GridAgreement.ShiftRoundTrip` | app/gui/propertybrowser/vistlebuttonpropertybrowser.cpp:450-490 | removeRow takes back what insertRow did, if nothing was put on the new row |
| `GridLayouts.GridLayout.InsertRow` | app/gui/propertybrowser/vistlebuttonpropertybrowser.cpp:450-469 | the loop that takes cells out while the index stays, and puts them back one row lower, is the shift of all cells from the row on |
| `GridLayouts.GridLayout.RemoveRow` | app/gui/propertybrowser/vistlebuttonpropertybrowser.cpp:471-490 | the same for the shift up |
| `GridLayouts.GridLayout.AddWidget` | app/gui/propertybrowser/vistlebuttonpropertybrowser.cpp:189 | one more cell |
| `GridLayouts.GridLayout.RemoveWidget` | app/gui/propertybrowser/vistlebuttonpropertybrowser.cpp:192 | the cell goes, and the others stay where they are |
| `PropertyBrowser.Browser.GridRow` | app/gui/propertybrowser/vistlebuttonpropertybrowser.cpp:95-112 | the loop computes the sum of the spans before the item, or -1 if its owner does not list it |
| `PropertyBrowser.Browser.SetExpanded` | app/gui/propertybrowser/vistlebuttonpropertybrowser.cpp:170-199 | does what the function on states says |
| `PropertyBrowser.Browser.SlotEditorDestroyed` | app/gui/propertybrowser/vistlebuttonpropertybrowser.cpp:129-138 | does what the function on states says |
| `PropertyBrowser.Browser.SlotUpdate` | app/gui/propertybrowser/vistlebuttonpropertybrowser.cpp:140-168 | works off the queue as the function on states does |
| `PropertyBrowser.Browser.PropertyInserted` | app/gui/propertybrowser/vistlebuttonpropertybrowser.cpp:267-378 | does what the function on states says |
| `PropertyBrowser.Browser.CreateContainer` | app/gui/propertybrowser/vistlebuttonpropertybrowser.cpp:297-341 | the block for a parent without a container |
| `PropertyBrowser.Browser.PropertyRemoved` | app/gui/propertybrowser/vistlebuttonpropertybrowser.cpp:380-448 | does what the function on states says |
| `PropertyBrowser.Browser.DropContainer` | app/gui/propertybrowser/vistlebuttonpropertybrowser.cpp:419-444 | the block for the last child |
| `LookupProtocol.RunInv` | app/gui/remotefilebrowser/vistlefileinfogatherer.cpp:106-333 | main result: over all interleavings of requests and replies the two tables are exactly the unanswered queries |
| `LookupProtocol.StepInv` | app/gui/remotefilebrowser/vistlefileinfogatherer.cpp:106-333 | m_dirs is the set of paths with an unanswered ReadDirectory, one each; m_files[p] is the disjoint union of the names in the unanswered lookups for p and never empty; each event keeps that |
| `LookupProtocol.LoadedIffLast` | app/gui/remotefilebrowser/vistlefileinfogatherer.cpp:243-252 | a lookup reply emits directoryLoaded for its path if and only if it was the last unanswered lookup for it |
| `LookupProtocol.FilesAsked` | app/gui/remotefilebrowser/vistlefileinfogatherer.cpp:310-332 | main result: after a request for files all of their names are outstanding, and those that were not so before are the names of one new lookup, each once; without such names nothing is sent |
| `LookupProtocol.DirectoryAsked` | app/gui/remotefilebrowser/vistlefileinfogatherer.cpp:302-309 | a request for a directory makes it outstanding and sends one query unless it was so before |
| `LookupProtocol.ListingAsked` | app/gui/remotefilebrowser/vistlefileinfogatherer.cpp:138-149 | the same for a listing: every listed name is outstanding, and each one that was not so before is in exactly one of at most one lookup per hundred names |
| `LookupProtocol.ReadReply` | app/gui/remotefilebrowser/vistlefileinfogatherer.cpp:126-168 | a listing asks for its names, takes its path off m_dirs and is passed on; an empty one is reported as loaded if its path was on m_dirs |
| `LookupProtocol.LookUpReply` | app/gui/remotefilebrowser/vistlefileinfogatherer.cpp:169-254 | a lookup reply takes exactly its names off, passes them on and reports its path as loaded exactly if nothing is left |
| `LookupProtocol.RequestAsked` | app/gui/remotefilebrowser/vistlefileinfogatherer.cpp:310-332 | every name that is handed in is in an unanswered lookup afterwards |
| `LookupProtocol.ListingIsAsked` | app/gui/remotefilebrowser/vistlefileinfogatherer.cpp:138-149 | so is every name of a listing |
| `LookupProtocol.OwedIs` | app/gui/remotefilebrowser/vistlefileinfogatherer.cpp:155-165 | a path is owed its report from its listing until directoryLoaded is emitted for it |
| `LookupProtocol.NormalIs` | app/gui/remotefilebrowser/vistlefileinfogatherer.cpp:315-318 | only leading slashes go, none is left on a longer name, and an empty name becomes a slash |
| `LookupProtocol.BatchesAdd` | app/gui/remotefilebrowser/vistlefileinfogatherer.cpp:138-149 | a listing adds lookups of at most 100 names, and nothing else |
| `LookupProtocol.FailureBlocks` | app/gui/remotefilebrowser/vistlefileinfogatherer.cpp:169-173 | a lookup that is not Ok keeps its path from ever being reported as loaded by a later lookup reply |
| `LookupProtocol.RepliesDecrease` | app/gui/remotefilebrowser/vistlefileinfogatherer.cpp:126-253 | each reply makes (unanswered listings, unanswered lookups) lexicographically smaller |
| `LookupProtocol.Quiescent` | app/gui/remotefilebrowser/vistlefileinfogatherer.h:109-110 | with nothing in flight m_dirs is empty and m_files holds exactly the paths of failed lookups; a path that is still to be reported is one of them, and without failures both tables are empty and every listed directory was reported as loaded |
| `LookupProtocol.FileInfoGatherer.FetchExtendedInformation` | app/gui/remotefilebrowser/vistlefileinfogatherer.cpp:297-333 | the loop with its deduplication is the function on tables |
| `LookupProtocol.FileInfoGatherer.NormalName` | app/gui/remotefilebrowser/vistlefileinfogatherer.cpp:315-318 | leading slashes go, an empty name becomes a slash |
| `LookupProtocol.FileInfoGatherer.FetchListed` | app/gui/remotefilebrowser/vistlefileinfogatherer.cpp:138-149 | the loop asks for the listed names in batches of 100 and leaves none out |
| `LookupProtocol.FileInfoGatherer.HandleReadDirectory` | app/gui/remotefilebrowser/vistlefileinfogatherer.cpp:126-168 | the handler is the function on tables |
| `LookupProtocol.FileInfoGatherer.HandleLookUpFiles` | app/gui/remotefilebrowser/vistlefileinfogatherer.cpp:169-254 | the handler is the function on tables |
| `SlotSearch.FindSlot` | app/gui/dataflownetwork.cpp:92-122 | main result: the restarting loop ends after at most as many moves as there are modules, at the first slot from the last drop position on with no module nearer than 30 |
| `SlotSearch.BlocksOneSlot` | app/gui/dataflownetwork.cpp:94-115 | a module is near at most one slot of an arrow direction |
| `SlotSearch.SlotsAre` | app/gui/dataflownetwork.cpp:94-112 | the slots go down and up by 80, left and right by 160 |
| `SlotSearch.FreeIsFar` | app/gui/dataflownetwork.cpp:113-120 | every module is at least 30 away from a free place |
| `SlotSearch.SlotExistsIff` | app/gui/dataflownetwork.cpp:95-119 | a free slot exists if and only if the key is an arrow or the last drop position is free: any other key would search for ever |
| `ConnectionTable.KeysOrdered` | app/gui/dataflownetwork.h:140-149 | the order of the keys is a strict total order |
| `ConnectionTable.PortsOrdered` | app/gui/port.cpp:153-164 | the order of the ports is asymmetric, and two of them are equal exactly if neither comes first |
| `ConnectionTable.PortsTransitive` | app/gui/port.cpp:153-159 | and it is transitive |
| `ConnectionTable.SameKeyIff` | app/gui/dataflownetwork.h:129-134 | two pairs of ports have the same key if and only if they are the same up to order |
| `ConnectionTable.RunNormal` | app/gui/dataflownetwork.cpp:198-217 | main result: in every run of requests, confirmations and deletions the table has at most one entry per unordered pair |
| `ConnectionTable.AddPairs` | app/gui/dataflownetwork.cpp:439-478 | adding adds that pair and touches no other entry |
| `ConnectionTable.RemovePairs` | app/gui/dataflownetwork.cpp:480-509 | a removal by the user only marks the entry; a confirmed one takes out that pair and no other |
| `ConnectionTable.AddResult` | app/gui/dataflownetwork.cpp:452-473 | a new connection has the ends asked for and waits to be established if the user asked for it; one that is there keeps its ends; what is sent to the controller |
| `ConnectionTable.RemoveResult` | app/gui/dataflownetwork.cpp:487-505 | a removal marks and sends, or erases; nothing happens for a connection that is not there |
| `ConnectionTable.ConnectsShown` | app/gui/dataflownetwork.cpp:294-332 | between two ports that are shown a connection is made and unmade, otherwise nothing happens |
| `ConnectionTable.ShownAfter` | app/gui/dataflownetwork.cpp:198-292 | which modules and ports are there after each event |
| `ConnectionTable.ConnectThenConfirm` | app/gui/dataflownetwork.cpp:452-473 | a request and its confirmation, with the ports in either order, leave one established entry with the ends of the request, and one message was sent |
| `ConnectionTable.DisconnectThenConfirm` | app/gui/dataflownetwork.cpp:487-505 | a removal is marked until it is confirmed, and then the entry is gone |
| `ConnectionTable.DeleteModulePairs` | app/gui/dataflownetwork.cpp:198-217 | deleting a module takes out exactly the pairs with one of its ports and leaves the other entries and modules alone |
| `ConnectionTable.DeletePortIff` | app/gui/dataflownetwork.cpp:270-292 | deleting a port takes out exactly its connections if and only if, where the second end is on the module, first and second end agree in having the name of the port |
| `ConnectionTable.DeletePortExample` | app/gui/dataflownetwork.cpp:281-290 | a connection that survives the deletion of its input port, and has an end that is gone |
| `ConnectionTable.RunAttachedIff` | app/gui/dataflownetwork.cpp:198-342 | main result: in every run both ends of every connection are ports that are shown, at every moment, if and only if no port is deleted while it is the second end of a connection from a port with another name |
| `ConnectionTable.StepAttachedIff` | app/gui/dataflownetwork.cpp:198-342 | each event on its own |
| `ConnectionTable.DataFlowNetwork.AddConnection` | app/gui/dataflownetwork.cpp:439-478 | the method is the function on networks |
| `ConnectionTable.DataFlowNetwork.RemoveConnection` | app/gui/dataflownetwork.cpp:480-509 | the method is the function on networks |
| `ConnectionTable.DataFlowNetwork.DeleteModule` | app/gui/dataflownetwork.cpp:198-217 | collect, then remove one by one: the function on networks |
| `ConnectionTable.DataFlowNetwork.DeletePort` | app/gui/dataflownetwork.cpp:270-292 | the same for a port, as it is coded; then the port itself goes if the port tracker still knows it |
| `ConnectionTable.DataFlowNetwork.RemovePort` | app/gui/module.cpp:810-851 | the port is no longer shown |
| `ConnectionTable.DataFlowNetwork.NewPort` | app/gui/dataflownetwork.cpp:259-268 | a port is shown if its module is there |
| `ConnectionTable.DataFlowNetwork.NewConnection` | app/gui/dataflownetwork.cpp:294-311 | a confirmed connection is added if both of its ports are shown |
| `ConnectionTable.DataFlowNetwork.DeleteConnection` | app/gui/dataflownetwork.cpp:313-332 | a confirmed removal needs both ports, too |
| `CompoundExport.ExportedOnce` | app/gui/dataflownetwork.cpp:865-897 | main result: every connection with an end in the selection is exported exactly once, and no other |
| `CompoundExport.ExportIs` | app/gui/dataflownetwork.cpp:849-902 | main result: the compound has the modules by ascending id, placed relative to the first, and exactly one entry for each connection with an end in the selection, with the names of its two ports and the places of their modules, -1 for a module outside |
| `CompoundExport.RecordsDescribe` | app/gui/dataflownetwork.cpp:866-897 | every entry has the port names of its connection and the places of the modules |
| `CompoundExport.CreateModuleCompound` | app/gui/dataflownetwork.cpp:849-902 | the compound holds the modules in the order of their ids and the connections, with ends renumbered to positions in that order and -1 outside |
| `CompoundExport.SortedIds` | app/gui/dataflownetwork.cpp:850-851 | the order by id is a permutation of the selection in which ids increase |
| `CompoundExport.SubmoduleAt` | app/gui/dataflownetwork.cpp:861-863 | submodule i is the i-th module, placed relative to the first one |
| `CompoundExport.ExportOutputs` | app/gui/dataflownetwork.cpp:866-880 | all connections of the outputs of a module, each described by its entry |
| `CompoundExport.ExportInputs` | app/gui/dataflownetwork.cpp:883-897 | the connections of its inputs that come from outside, each described by its entry |
| `CompoundExport.FindModule` | app/gui/dataflownetwork.cpp:870-875 | the position of a module in the selection, or -1 |
| `MoveResults.NamedFirstIff` | app/gui/remotefilebrowser/qsidebar.cpp:279-338 | main result: a list that is moved below enough rows that are not in it comes out in one piece if and only if every place in it is named no later than the first place that follows itself |
| `MoveResults.NamedFirstThen` | app/gui/remotefilebrowser/qsidebar.cpp:279-338 | such a list comes out in one piece at every row of every list of rows without repetition |
| `MoveResults.MoveResult` | app/gui/remotefilebrowser/qsidebar.cpp:279-338 | main result, for any list and any row of rows without repetition: the listed places come out in the order of the list, each once where it comes first, the other rows keep their order, and the list comes out in one piece if and only if no row that stays is passed, where a place follows itself, while a place behind is not named before |
| `MoveResults.LandsOnRowIff` | app/gui/remotefilebrowser/qsidebar.cpp:321-336 | for any list, it lands right behind the rows that stay and stood above the insertion row if and only if none of them is passed |
| `MoveResults.MoveNoTwins` | app/gui/remotefilebrowser/qsidebar.cpp:279-338 | without equal neighbours addUrls gives A ++ L ++ B with L the list with each place once and A and B the kept rows above and below the insertion row, or the row before it if the last entry of the list sits on that row; A is then one row short exactly if that row stays |
| `SidebarUrls.StepsBackExample` | app/gui/remotefilebrowser/qsidebar.cpp:321-326 | dropping the second of three bookmarks on itself moves it to the front |
| `SidebarUrls.TwinsExample` | app/gui/remotefilebrowser/qsidebar.cpp:323-326 | x, x, z moved to the second of the rows a, b gives x, a, z, b |
| `MoveInsert.MoveKeeps` | app/gui/remotefilebrowser/qsidebar.cpp:279-338 | for any list and any row, no place is lost, none comes in that is not listed, none is there twice, and the rows that are not listed keep their order |
| `MoveResults.SetResult` | app/gui/remotefilebrowser/qsidebar.cpp:265-271 | setUrls with any list gives each place once, where it comes first |
| `MoveInsert.FirstOfEachDistinct` | app/gui/remotefilebrowser/qsidebar.cpp:265-271 | and no place twice, none missing |
| `SidebarUrls.RunDistinct` | app/gui/remotefilebrowser/qsidebar.cpp:265-338 | main result: in every run of setUrls, moving addUrls, removals, listings and system infos of the server, no place is bookmarked twice at any moment if and only if no system info tells that two of the bookmarks there are for the same place |
| `SidebarUrls.StepDistinctIff` | app/gui/remotefilebrowser/qsidebar.cpp:279-338 | each step on its own |
| `SidebarUrls.CallPlaces` | app/gui/remotefilebrowser/qsidebar.cpp:279-338 | after addUrls exactly the places are bookmarked that were so before or are named in the list by home or a directory; after setUrls exactly those that are named |
| `SidebarUrls.NewPlacesAt` | app/gui/remotefilebrowser/qsidebar.cpp:281-283 | new places come in at the row, at the end for -1 and for rows that do not exist |
| `SidebarUrls.StoredIs` | app/gui/remotefilebrowser/qsidebar.cpp:302-308 | a directory is stored by its cleaned path, or as home if that is home |
| `SidebarUrls.RemovalPlaces` | app/gui/remotefilebrowser/qsidebar.cpp:265-268 | a removal takes exactly one place out |
| `SidebarUrls.NewsKeepRows` | app/gui/remotefilebrowser/qsidebar.cpp:379-390 | news of the server change no bookmark |
| `MoveInsert.AddAllUnmoved` | app/gui/remotefilebrowser/qsidebar.cpp:312-336 | without moving, the list comes in at the row as it is |
| `SidebarUrls.TwinBookmarksExample` | app/gui/remotefilebrowser/qsidebar.cpp:316-322 | home and a directory are bookmarked, and then that directory turns out to be home |
| `SidebarUrls.RemoteUrlModel.Initialized` | app/gui/remotefilebrowser/qsidebar.cpp:379-390 | a system info changes how places are compared and sets every home bookmark to itself; no bookmark goes |
| `SidebarUrls.SameIsSameKey` | app/gui/remotefilebrowser/qsidebar.cpp:312-322 | the comparison in the inner loop is equality of a key of the two urls |
| `SidebarUrls.RemoteUrlModel.AddUrls` | app/gui/remotefilebrowser/qsidebar.cpp:279-338 | the loop from the end of the list on, with its moving row, is the function on rows, and the row stays in bounds |
| `SidebarUrls.RemoteUrlModel.FirstSame` | app/gui/remotefilebrowser/qsidebar.cpp:312-328 | the inner loop finds the first row for the same place |
| `SidebarUrls.RemoteUrlModel.SetUrls` | app/gui/remotefilebrowser/qsidebar.cpp:265-271 | the rows become the places of the list, each once |
| `FieldRemap.Remap` | lib/vistle/alg/fields.cpp:61-103 | main result: for every component, each slot of the new field holds what was copied there last, for both forms of the mapping and both directions |
| `FieldRemap.GatherAfterScatter` | lib/vistle/alg/fields.cpp:77-97 | scatter and then gather by an injective mapping is the identity |
| `FieldRemap.ScatterAfterGather` | lib/vistle/alg/fields.cpp:77-97 | gather and then scatter is the identity: every slot is written, by the pigeonhole principle |
| `FieldRemap.AllWrittenIff` | lib/vistle/alg/fields.cpp:77-97 | every slot is written if and only if no slot is written twice |
| `FieldRemap.GatherKeepsValues` | lib/vistle/alg/fields.cpp:77-87 | a gather by a permutation keeps the multiset of values |
| `FieldRemap.ScatterKeepsValues` | lib/vistle/alg/fields.cpp:88-97 | so does a scatter |
| `FieldRemap.GatherTwice` | lib/vistle/alg/fields.cpp:77-87 | gather by one mapping and then another is the gather by the composed mapping |
| `FieldRemap.GatherAt` | lib/vistle/alg/fields.cpp:77-87 | a gather reads slot k from the k-th index |
| `FieldRemap.ScatterAt` | lib/vistle/alg/fields.cpp:88-97 | a scatter writes entry i to the i-th index, and the last writer wins |
| `FieldRemap.SameMovesIff` | lib/vistle/alg/fields.cpp:8-59 | an ordered map makes the same copies in the same order as a vector if and only if its keys are the indices and its values the elements of the vector |
| `FieldRemap.GatherNeedsAllKeys` | lib/vistle/alg/fields.cpp:77-84 | a gather by an ordered map stays within the asserted bounds only if its keys are 0 to n - 1 |
| `LongProperty.RunInv` | app/gui/propertybrowser/qtlongeditorfactory.cpp:75-155 | main result: after any run of manager calls, steps, numbers entered by the user, and editors and properties that come and go: minimum <= value <= maximum, every spin box shows its property in value, range, step and flag, and the two editor maps are inverse |
| `LongProperty.RunLegal` | app/gui/propertybrowser/qlongspinbox.cpp:33-47 | the same with direct calls of the slot setText, as long as none of them is stale |
| `LongProperty.RunSound` | app/gui/propertybrowser/qtlongeditorfactory.cpp:75-155 | the same for all runs, except that a box may show another value |
| `LongProperty.StepHeals` | app/gui/propertybrowser/qtpropertymanager_helpers.cpp:122-247 | every operation: it keeps coherence if and only if it is not a stale call of setText, and any change of value or range makes all boxes of the property coherent again, whatever they showed |
| `LongProperty.TypedIff` | app/gui/propertybrowser/qlongspinbox.cpp:33-47 | a direct call of the public slot setText leaves box and property coherent if and only if its number is not both out of range and clipped to the old value |
| `LongProperty.StaleExample` | app/gui/propertybrowser/qlongspinbox.cpp:41-47 | value and maximum are 10, and setText is called with 20: the box goes on showing 20 |
| `LongProperty.BoxStores` | app/gui/propertybrowser/qlongspinbox.cpp:33-64 | main result: whatever the user does to a box, the property gets the value in its range that is nearest to the number asked for, a step counting from what the box shows, and nothing else is stored |
| `LongProperty.TypedStores` | app/gui/propertybrowser/qtlongeditorfactory.cpp:140-155 | a number that arrives in a box reaches the manager of its property |
| `LongProperty.StepExample` | app/gui/propertybrowser/qlongspinbox.cpp:54-64 | one step up from 3 stores 4 |
| `LongProperty.SetValueStores` | app/gui/propertybrowser/qtpropertymanager_helpers.cpp:122-154 | the value becomes the number in the range that is nearest to the one asked for, and nothing else is stored |
| `LongProperty.SetMinimumStores` | app/gui/propertybrowser/qtpropertymanager_helpers.cpp:3-12 | a new minimum pushes maximum and value exactly as far as needed |
| `LongProperty.SetMaximumStores` | app/gui/propertybrowser/qtpropertymanager_helpers.cpp:14-23 | a new maximum pushes minimum and value exactly as far as needed |
| `LongProperty.SetRangeStores` | app/gui/propertybrowser/qtpropertymanager_helpers.cpp:156-199 | both borders are taken over in order, and the value becomes the nearest number between them |
| `LongProperty.SetStepStores` | app/gui/propertybrowser/qtlongpropertymanager.cpp:250-269 | a step is stored, a negative one as 0 |
| `LongProperty.SetReadOnlyStores` | app/gui/propertybrowser/qtlongpropertymanager.cpp:276-292 | the flag is stored |
| `LongProperty.CreateShows` | app/gui/propertybrowser/qtlongeditorfactory.cpp:205-217 | a new box shows all settings of its property and is entered in both maps; other boxes stay |
| `LongProperty.DestroyForgets` | app/gui/propertybrowser/propertyeditorfactory_p.h:112-130 | exactly the box goes from both maps |
| `LongProperty.PropertyComes` | app/gui/propertybrowser/qtlongpropertymanager.cpp:297-308 | a new property has the value 0, the range of 64 bits and step 1; one that goes leaves everything else alone |
| `LongProperty.SteppedNearest` | app/gui/propertybrowser/qlongspinbox.cpp:54-61 | a step goes to the number in the range nearest to value plus steps |
| `LongProperty.FixedNearest` | app/gui/propertybrowser/qlongspinbox.cpp:71-88 | what the user enters is fixed up to an acceptable number, the one in the range that is nearest to it |
| `LongProperty.FixedInRange` | app/gui/propertybrowser/qlongspinbox.cpp:5-8 | so no number that arrives through the line edit is stale |
| `LongProperty.RangeIs` | app/gui/propertybrowser/qtpropertymanager_helpers.cpp:4-23 | setting both borders in turn gives the range asked for, with the value clipped to it |
| `LongEditors.SpinBoxFactory.SetValue` | app/gui/propertybrowser/qtpropertymanager_helpers.cpp:122-154 | with the slots it sets off: the function on states; the exchange of signals ends |
| `LongEditors.SpinBoxFactory.SetRange` | app/gui/propertybrowser/qtpropertymanager_helpers.cpp:159-199 | borders in either order, range signal before value signal |
| `LongEditors.SpinBoxFactory.SetMinimum` | app/gui/propertybrowser/qtpropertymanager_helpers.cpp:204-247 | the function on states |
| `LongEditors.SpinBoxFactory.SetMaximum` | app/gui/propertybrowser/qtpropertymanager_helpers.cpp:204-247 | the function on states |
| `LongEditors.SpinBoxFactory.SetSingleStep` | app/gui/propertybrowser/qtlongpropertymanager.cpp:250-269 | negative steps become 0 |
| `LongEditors.SpinBoxFactory.SetReadOnly` | app/gui/propertybrowser/qtlongpropertymanager.cpp:276-292 | the flag reaches every box |
| `LongEditors.SpinBoxFactory.SlotPropertyChanged` | app/gui/propertybrowser/qtlongeditorfactory.cpp:75-88 | the loop with blocked signals brings every box of the property, and no other, to the value |
| `LongEditors.SpinBoxFactory.SlotRangeChanged` | app/gui/propertybrowser/qtlongeditorfactory.cpp:90-107 | the same for range and value |
| `LongEditors.SpinBoxFactory.SlotSetValue` | app/gui/propertybrowser/qtlongeditorfactory.cpp:140-155 | the number of a box goes to the manager |
| `LongEditors.SpinBoxFactory.CreateEditor` | app/gui/propertybrowser/qtlongeditorfactory.cpp:205-217 | a new box shows its property and is entered in both maps |
| `LongEditors.SpinBoxFactory.SlotEditorDestroyed` | app/gui/propertybrowser/propertyeditorfactory_p.h:112-130 | a box that goes is taken out of both maps |
| `LongEditors.SpinBoxFactory.BoxSetValue` | app/gui/propertybrowser/qlongspinbox.cpp:33-47 | blocked: only the box changes; otherwise the manager and the other boxes follow |
| `LongEditors.SpinBoxFactory.BoxEditingFinished` | app/gui/propertybrowser/qlongspinbox.cpp:71-88 | the number is fixed up unless it is acceptable, and goes to setText |
| `LongEditors.SpinBoxFactory.InitializeProperty` | app/gui/propertybrowser/qtlongpropertymanager.cpp:297-300 | a new property has the value 0, the whole range of long and step 1 |
| `LongEditors.SpinBoxFactory.UninitializeProperty` | app/gui/propertybrowser/qtlongpropertymanager.cpp:305-308 | the property goes, its boxes stay until they are destroyed |
| `LongEditors.SpinBoxFactory.BoxStepBy` | app/gui/propertybrowser/qlongspinbox.cpp:54-64 | the step is clipped to the range of the box before the manager hears of it |
| `LongVectorProperty.RunInv` | app/gui/propertybrowser/qtlongvectorpropertymanager.cpp:35-277 | main result: after any run of vector sets and number edits the two maps are inverse, every property that was added and not removed has its four sub-properties, and every number that counts is what its sub-property shows |
| `LongVectorProperty.InitializeResult` | app/gui/propertybrowser/qtlongvectorpropertymanager.cpp:229-261 | a new property has four sub-properties with the number 0, which stand in both maps; what was there stays |
| `LongVectorProperty.UninitializeLeaves` | app/gui/propertybrowser/qtlongvectorpropertymanager.cpp:263-277 | a property that goes takes exactly its own sub-properties with it |
| `LongVectorProperty.SetValueStores` | app/gui/propertybrowser/qtlongvectorpropertymanager.cpp:172-192 | a vector that differs in its dimension or in a number that counts is stored and published and reaches exactly the sub-properties of the numbers that count; any other one changes nothing |
| `LongVectorProperty.SetDimensionAnnounces` | app/gui/propertybrowser/qtlongvectorpropertymanager.cpp:194-214 | of a dimension that is set only the announcement is left, clipped to 4 |
| `LongVectorProperty.LivingIff` | app/gui/propertybrowser/qtlongvectorpropertymanager.cpp:229-277 | the properties meant are those that were added and not removed since |
| `LongVectorProperty.SetValueResult` | app/gui/propertybrowser/qtlongvectorpropertymanager.cpp:172-192 | one set stores the vector as given, every value published on the way is the whole new vector, and its dimension is announced exactly if the vector changes and the stored dimension differs |
| `LongVectorProperty.SetSubResult` | app/gui/propertybrowser/qtlongvectorpropertymanager.cpp:35-46 | a number edit changes that component of that vector only, and publishes the vector |
| `LongVectorProperty.SetSubClips` | app/gui/propertybrowser/qtlongvectorpropertymanager.cpp:35-46 | a number that does not fit is clipped to the nearest one that does |
| `LongVectorProperty.RunDimension` | app/gui/propertybrowser/qtlongvectorpropertymanager.cpp:194-214 | the stored dimension is 0 after any run, whatever dimensions were set |
| `LongVectorProperty.AnnouncedAgain` | app/gui/propertybrowser/qtlongvectorpropertymanager.cpp:181-183 | so every set that changes the vector announces its dimension, unless that is 0 |
| `LongVectorManager.VectorManager.SetValue` | app/gui/propertybrowser/qtlongvectorpropertymanager.cpp:172-192 | with the slots it sets off: the function on states |
| `LongVectorManager.VectorManager.SlotLongChanged` | app/gui/propertybrowser/qtlongvectorpropertymanager.cpp:35-46 | the search through the components is the function on states |
| `LongVectorManager.VectorManager.SetDimension` | app/gui/propertybrowser/qtlongvectorpropertymanager.cpp:194-214 | only a signal is left of it |
| `LongVectorManager.VectorManager.InitializeProperty` | app/gui/propertybrowser/qtlongvectorpropertymanager.cpp:229-261 | four sub-properties and their entries in the maps |
| `WorkerQueue.RunInv` | app/gui/remotefilebrowser/remotefileinfogatherer.cpp:198-219 | main result: in all interleavings of callers and worker, taken ++ pending is the accepted requests in order, and the entries at index 1 and above are pairwise distinct |
| `WorkerQueue.Served` | app/gui/remotefilebrowser/remotefileinfogatherer.cpp:394-411 | every call, dropped or not, is served by a turn of the worker after the call, once the queue has run empty |
| `WorkerQueue.TurnsServe` | app/gui/remotefilebrowser/remotefileinfogatherer.cpp:394-411 | the request at index k is served by the k + 1 next turns, whatever calls come in between |
| `WorkerQueue.AtMostTwice` | app/gui/remotefilebrowser/remotefileinfogatherer.cpp:201-209 | no request waits more than twice |
| `WorkerQueue.CallAdds` | app/gui/remotefilebrowser/remotefileinfogatherer.cpp:201-212 | a call adds its request at the end unless an equal one waits behind the head; equal to the head alone, it is added |
| `WorkerQueue.StopsForGood` | app/gui/remotefilebrowser/remotefileinfogatherer.cpp:142-149 | after an abort the worker takes nothing any more |
| `WorkerQueue.Gatherer.FetchExtendedInformation` | app/gui/remotefilebrowser/remotefileinfogatherer.cpp:198-212 | the search that stops at index 0: a call is dropped if and only if an equal request waits at index 1 or above; the two queues keep equal length |
| `WorkerQueue.Gatherer.RunOnce` | app/gui/remotefilebrowser/remotefileinfogatherer.cpp:394-411 | one turn takes the head of both queues |
| `WorkerQueue.Gatherer.Stop` | app/gui/remotefilebrowser/remotefileinfogatherer.cpp:142-149 | from then on the worker takes nothing |
| `WorkerQueue.LastIndexOf` | app/gui/remotefilebrowser/remotefileinfogatherer.cpp:202-208 | the last index up to a given one |
| `UpdateBatches.NothingLost` | app/gui/remotefilebrowser/remotefileinfogatherer.cpp:377-389 | main result: for every behaviour of the clock the batches, put together, are the entries in order; none is empty, and the first has at most 101 entries |
| `UpdateBatches.WaitsIff` | app/gui/remotefilebrowser/remotefileinfogatherer.cpp:377-389 | for every behaviour of the clock, an entry still waits after a later fetch if and only if at none of the fetches in between the last batch was more than 1000 ms ago and, if there was no batch yet, at most 100 entries were read |
| `UpdateBatches.QuietClock` | app/gui/remotefilebrowser/remotefileinfogatherer.cpp:377-389 | as long as no 1000 ms go by there are two batches, of 101 entries and of all the others |
| `UpdateBatches.Fetch.GetFileInfos` | app/gui/remotefilebrowser/remotefileinfogatherer.cpp:344-375 | the batches sent are those of the entries read before the end or the abort; the names are sent once if a directory was listed; directoryLoaded comes once and last |
| `UpdateBatches.Fetch.FetchOne` | app/gui/remotefilebrowser/remotefileinfogatherer.cpp:377-389 | one entry |
| `UpdateBatches.Fetch.GetDrives` | app/gui/remotefilebrowser/remotefileinfogatherer.cpp:325-344 | the drives are sent one by one, from the last to the first, without directoryLoaded |
| `PathHistory.RunRefines` | app/gui/remotefilebrowser/remotefiledialog.cpp:2965-3017 | main result: every run of the dialog is a run of a zipper of paths, and after every step the two buttons are enabled exactly when a move is possible |
| `PathHistory.StepRefines` | app/gui/remotefilebrowser/remotefiledialog.cpp:2965-3017 | each step on its own |
| `PathHistory.GoToRefines` | app/gui/remotefilebrowser/remotefiledialog.cpp:776-807 | a new path drops exactly the paths ahead; the current path changes nothing |
| `PathHistory.BackThenForward` | app/gui/remotefilebrowser/remotefiledialog.cpp:2994-3017 | back and then forward is no change at all |
| `PathHistory.ForwardThenBack` | app/gui/remotefilebrowser/remotefiledialog.cpp:2994-3017 | nor is forward and then back |
| `PathHistory.LoadChangesNothing` | app/gui/remotefilebrowser/remotefiledialog.cpp:3433-3455 | reading a directory leaves the history alone |
| `PathHistory.SetDirectoryIs` | app/gui/remotefilebrowser/remotefilesystemmodel.cpp:1298-1360 | a directory leads to its cleaned absolute form, unless that is shown already |
| `PathHistory.GoToResult` | app/gui/remotefilebrowser/remotefiledialog.cpp:2965-2987 | a new place is put behind the current one and shown, and the list ends there |
| `PathHistory.TargetIs` | app/gui/remotefilebrowser/remotefiledialog.cpp:776-800 | a relative directory is taken from the working directory, and the path is cleaned |
| `PathHistory.MoveResult` | app/gui/remotefilebrowser/remotefiledialog.cpp:2994-3017 | back and forward show the neighbour and leave the list alone |
| `PathHistory.FileDialog.PathChanged` | app/gui/remotefilebrowser/remotefiledialog.cpp:2965-2987 | the loop that drops the paths ahead is the function on states |
| `PathHistory.FileDialog.SetRootPath` | app/gui/remotefilebrowser/remotefilesystemmodel.cpp:1298-1360 | the function on states |
| `PathHistory.FileDialog.SetDirectory` | app/gui/remotefilebrowser/remotefiledialog.cpp:776-807 | the function on states |
| `PathHistory.FileDialog.DirectoryLoaded` | app/gui/remotefilebrowser/remotefiledialog.cpp:3433-3455 | a loaded directory is set as root only if it is the current path of the history |
| `PathHistory.FileDialog.NavigateBackward` | app/gui/remotefilebrowser/remotefiledialog.cpp:2994-3002 | the function on states |
| `PathHistory.FileDialog.NavigateForward` | app/gui/remotefilebrowser/remotefiledialog.cpp:3009-3017 | the function on states |
| `QuotedNames.RoundTripIff` | app/gui/remotefilebrowser/remotefiledialog.cpp:3375-3383 | main result: names shown and tokenised again come back in their order if and only if there is a name and none has a double quote |
| `QuotedNames.SelectionIsRead` | app/gui/remotefilebrowser/remotefiledialog.cpp:971-1009 | the names of files that exist are read as themselves, also those that start with a tilde |
| `QuotedNames.TildeIsHome` | app/gui/remotefilebrowser/remotefiledialog.cpp:953-966 | an absent name with a tilde alone or in front of a slash is read with the home directory |
| `QuotedNames.ReadAsIs` | app/gui/remotefilebrowser/remotefiledialog.cpp:953-966 | any other name is read as it is |
| `QuotedNames.ShownIs` | app/gui/remotefilebrowser/remotefiledialog.cpp:3375-3383 | one name is shown bare, several are quoted with a blank between them |
| `QuotedNames.Show` | app/gui/remotefilebrowser/remotefiledialog.cpp:3375-3383 | two or more names are quoted, one is shown bare |
| `QuotedNames.TypedFiles` | app/gui/remotefilebrowser/remotefiledialog.cpp:971-1009 | every second token is a name; names that do not exist have their tilde expanded |
| `StepSearch.SingleStep` | app/gui/parameters.cpp:464-479 | main result: for every positive finite range the search ends with a power of ten such that range/step is in (30, 300] for ranges above 300 and in [300, 3000) otherwise; else the step is 1 |
| `StepSearch.OnlyOneFits` | app/gui/parameters.cpp:466-474 | no other power of ten does |
| `RankedFilter.FilterRanks` | app/gui/parameterconnectionwidgets.cpp:207-244 | main result: the result is a permutation of the names, best score first and alphabetical within a score |
| `RankedFilter.BestFirst` | app/gui/parameterconnectionwidgets.cpp:233-238 | of two names in the result the first has the better score, or the same and comes first in the alphabet |
| `RankedFilter.ScoreOfMatch` | app/gui/parameterconnectionwidgets.cpp:212-216 | a name that has the query somewhere, in any case of letters, gets 100 minus the first place |
| `RankedFilter.ScoreOfLetters` | app/gui/parameterconnectionwidgets.cpp:217-230 | any other name gets the number of letters of the query that it has |
| `RankedFilter.EarlierIsBetter` | app/gui/parameterconnectionwidgets.cpp:212-216 | an earlier match is worth more |
| `RankedFilter.BelowIff` | app/gui/parameterconnectionwidgets.cpp:233-238 | the order within a score is alphabetical |
| `RankedFilter.FilterUnique` | app/gui/parameterconnectionwidgets.cpp:233-238 | the result depends only on the multiset of names, not on their order nor on the sorting algorithm |
| `RankedFilter.CountScore` | app/gui/parameterconnectionwidgets.cpp:210-232 | 100 minus the place of the query, or else the number of its letters that the name has: the bonus for letters in order never applies |
| `RankedFilter.FilterParameters` | app/gui/parameterconnectionwidgets.cpp:207-244 | the loops are the function on names |
| `RankedFilter.BeforeIsTotalOrder` | app/gui/parameterconnectionwidgets.cpp:233-238 | the comparison is a strict total order, as std::sort needs it |
| `RankedFilter.SortLike` | app/gui/parameterconnectionwidgets.cpp:344-355 | each name gets the flag of its first entry in the base list |
| `RankedFilter.Populate` | app/gui/parameterconnectionwidgets.cpp:344-355 | filter and sortLike together: names that differ keep their own flags |

## Left out

- Painting, fonts, icons, tool tips, menus, mouse and keyboard handling, drag and drop, settings: nothing to state beyond single branches.
- Grid columns, row spans and column spans: the column of a cell follows from its kind; only origin rows are tracked.
- The branches for a removed item that spans two rows (`vistlebuttonpropertybrowser.cpp:413-418`): the browser core removes the children first, and with them the container.
- The order of independent statements inside propertyInserted and propertyRemoved, and the texts set by updateItem.
- PropertyBrowser.Browser.SetExpanded: the browser works on grids as maps from cells to rows and not on layout objects; GridLayouts shows that the loops over a layout are the shifts of such maps.
- Lookups assume a server that answers each query once, echoes its path and, with status Ok, the names asked for; what the gatherer does with SystemInfo and MakeDirectory replies and the contents of the file infos are not modelled.
- File watching in both gatherers, and updateFile, which only splits a path.
- The worker's waiting and the mutex: a call and a turn of the worker are atomic steps; abort stops the worker.
- Path tests on Windows builds of the user interface (drive names, separators, tilde); the lower case of a path is a parameter.
- addDefaultSuffixToFiles after typedFiles: paths and suffixes, no quoting.
- `invalidUrls`, `watching` and the icons of the side bar; urls that are not files or home are skipped as in the code.
- ConnectionTable.DataFlowNetwork.AddConnection: leaves out the validity test of the key, because a port is only ever made with its controller port (`module.cpp:788-796`), which is what the test asks for.
- ConnectionTable.DataFlowNetwork.NewPort: leaves out parameter ports, which are never shown; which of the three port lists of a module holds a port is not modelled.
- removeConnections, which goes on with an erased iterator (`dataflownetwork.cpp:542`), and connection highlights and visibility.
- Whether a disconnect request is really sent depends on the port tracker, which is not part of this model; it is always recorded here.
- StateTracker, VistleConnection and message packing are not part of this model; symmetric port connections are an assumption of the export.
- The file name dialog and the sending of the compound; positions are exact numbers.
- Rounding: the distance test, positions and the step search are over exact numbers, and infinite ranges are a case of their own.
- Text that is not a number, and Qt's line edit itself: it is assumed to report the end of editing only with text that is acceptable or has been fixed up.
- Integer overflow in stepBy: the sum is unbounded; vectors hold 64-bit numbers.
- A new field is filled with one arbitrary value: what setSize leaves in it is not known. Attributes and mapping kind of the field are not modelled.
- Receivers of the manager's signals outside the factory and the vector manager, and the sub-properties' own ranges, which nothing sets.
- Read-only, minimum and maximum vectors of the vector manager, which are stored and not used for the value; slotPropertyDestroyed for a sub-property that goes on its own.
- Slider, scroll-bar, double and string editors and the vector of doubles: the same pattern as the spin boxes and the vector of integers.
- The history combo box and the side bar selection that follow a path change.
