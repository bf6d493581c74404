# openLCA application: editor and model logic in Dafny

This project models the sequential, in-memory logic of several parts of the
openLCA desktop application (olca-app), and proves properties of it.

- **Locations editor.** It tracks added, removed, changed and KML-changed
  locations. It keeps the sorted list and the dirty flag. A save writes
  the pending changes through the location DAO and drops regionalisation
  parameters.
- **Libraries.** `forCalculation` is a work-list traversal of the library
  dependency graph. There are the two license-validity checks, the
  decision logic of `readerOf`, and the URL encoding of library downloads.
- **Process-link command.** It decides which end of a drag provides and
  which consumes, for product flows and for waste flows.
- **Sankey diagram.** It covers the default selection, the cutoff guard of
  `update`, and how the nodes and links of a Sankey graph are
  materialised. The graph itself comes from an external builder.
- **Impact-method page.** Impact categories are added to and removed from
  a method. Removal cascades to the normalisation and weighting factors.
- **Model comparison tree.** It covers the labels, backgrounds and
  children of the nodes of a JSON diff, and the mirrored selection of
  the two trees.
- **Colours.** There is the `#RRGGBB` parser, in the six-digit form of
  section 5.2 of CSS Color Module Level 4, with white and black
  fallbacks. There is also the colour cache.
- **Graph settings dialog.** It covers apply-on-OK, the initial size and
  the theme index.
- **Start page.** It covers the version line and the language default.

External code becomes parameters of the model. That includes DAO lookups,
`Strings.compare`, `JsonUtil.isReference`, `LibrarySession.isValid`,
`isDirty(entity)`, `ProviderType.of` and the Sankey builder. DAO writes go
to a ghost log.

The modules are the following:

- `Common`: Option, `List.remove` and a stable sort.
- `JavaText`: `String.compareTo`, `toLowerCase`, `trim`, `strip` and
  `split`.
- One module per source file: `Locations`, `Libraries`, `CreateLink`,
  `SankeyModel`, `ImpactMethodPage`, `ModelTreeView`, `Colors`,
  `GraphSettings` and `StartPage`.

## Model

| member | source | states |
|---|---|---|
| Common.RemoveFirst | olca-app/src/org/openlca/app/editors/lcia/ImpactMethodInfoPage.java:133 | List.remove takes out one occurrence: an absent element leaves the list as it was, otherwise the list is one shorter |
| Common.RemoveFirstMultiset | olca-app/src/org/openlca/app/editors/lcia/ImpactMethodInfoPage.java:133 | List.remove takes out exactly one occurrence of the element, if there is one, and keeps every other element |
| Common.SortBy | olca-app/src/org/openlca/app/editors/lcia/ImpactMethodInfoPage.java:72 | sorting with a comparator that is a total preorder yields a sorted permutation of the list, and elements the comparator cannot tell apart keep their input order (List.sort is stable) |
| Common.InsertionPoint | olca-app/src/org/openlca/app/editors/lcia/ImpactMethodInfoPage.java:72 | the search stops at a position where the element before it is at most the new element and everything after it is strictly greater than it |
| Common.InsertSorted | olca-app/src/org/openlca/app/editors/lcia/ImpactMethodInfoPage.java:72 | inserting into a sorted list keeps it sorted, adds exactly the new element, and puts it after every element it ties with |
| Common.InsertionStable | olca-app/src/org/openlca/app/editors/lcia/ImpactMethodInfoPage.java:72 | an element inserted after its equals and before strictly greater elements joins the end of its run of equals, and no other run changes |
| Common.TiesInsert | olca-app/src/org/openlca/app/editors/lcia/ImpactMethodInfoPage.java:72 | inserting an element ahead of a part with none of its equals appends it to its run of equals and leaves the other runs alone |
| Common.TiesAppend | olca-app/src/org/openlca/app/editors/lcia/ImpactMethodInfoPage.java:72 | the run of elements equal to y in a concatenation is the run in the first part followed by the run in the second |
| Common.TiesNone | olca-app/src/org/openlca/app/editors/lcia/ImpactMethodInfoPage.java:72 | if every element is strictly greater than something equal to y, no element is equal to y |
| Locations.NamelessFirst | olca-app/src/org/openlca/app/editors/locations/LocationsEditor.java:188-194 | a null location or a location without a name counts as "": it sorts before every location, and null and nameless tie |
| Locations.CaseInsensitive | olca-app/src/org/openlca/app/editors/locations/LocationsEditor.java:182-193 | any two named locations whose names are equal after lower-casing compare equal, whatever their ids and KMZ data |
| Locations.NameOrderIsTotalPreorder | olca-app/src/org/openlca/app/editors/locations/LocationsEditor.java:179-196 | the location comparator is total and transitive, so sorting with it is meaningful |
| Locations.ListSet | olca-app/src/org/openlca/app/editors/locations/LocationsEditor.java:109-110 | a for-each over a HashSet visits every element exactly once |
| Locations.FileParamOpsExact | olca-app/src/org/openlca/app/editors/locations/LocationsEditor.java:133-135 | for one method, a parameter removal happens exactly for each shape file of the method paired with each KML-changed location |
| Locations.ParamOpsExact | olca-app/src/org/openlca/app/editors/locations/LocationsEditor.java:126-136 | a parameter removal happens exactly for every (method, shape file of that method, KML-changed location) triple, and nothing else is removed |
| Locations.LocationsEditor.constructor | olca-app/src/org/openlca/app/editors/locations/LocationsEditor.java:94-101 | init shows the DAO's locations as a name-sorted permutation, with no pending changes and a clean editor |
| Locations.LocationsEditor.OnSaved | olca-app/src/org/openlca/app/editors/locations/LocationsEditor.java:46-48 | the handler is appended to the saved handlers and nothing else changes |
| Locations.LocationsEditor.SetDirty | olca-app/src/org/openlca/app/editors/locations/LocationsEditor.java:144-150 | the flag takes the value, and a notification fires exactly when the value differs from the old one |
| Locations.LocationsEditor.LocationAdded | olca-app/src/org/openlca/app/editors/locations/LocationsEditor.java:50-54 | the location joins added and goes to the front of the list; the editor is dirty; the other sets and the log are unchanged |
| Locations.LocationsEditor.LocationRemoved | olca-app/src/org/openlca/app/editors/locations/LocationsEditor.java:56-68 | a pending-added location leaves added and never enters removed; any other location enters removed; in both cases it leaves changed and the list, ends up in kmlChanged, and the editor is dirty |
| Locations.LocationsEditor.ForgetChanges | olca-app/src/org/openlca/app/editors/locations/LocationsEditor.java:61-64 | the guarded removals take the location out of changed and kmlChanged |
| Locations.LocationsEditor.LocationChanged | olca-app/src/org/openlca/app/editors/locations/LocationsEditor.java:70-77 | a location pending add or removal records nothing and leaves the dirty flag; any other location enters changed and dirties the editor |
| Locations.LocationsEditor.LocationKmlChanged | olca-app/src/org/openlca/app/editors/locations/LocationsEditor.java:79-83 | the location always enters kmlChanged and the editor is dirty, even where changed is skipped |
| Locations.LocationsEditor.UpdateModel | olca-app/src/org/openlca/app/editors/locations/LocationsEditor.java:171-177 | added, removed and changed are cleared, kmlChanged and the dirty state are kept, and the list is a name-sorted permutation of the reloaded rows |
| Locations.LocationsEditor.DoSave | olca-app/src/org/openlca/app/editors/locations/LocationsEditor.java:108-142 | each added location is inserted and each removed one deleted, then both sets are empty; each changed one is updated, with KMZ loaded first where it is missing. Without a shape-file folder, save stops there: changed, the list and the dirty flag stay. Otherwise the parameters are removed, changed is empty, the list is reloaded sorted, the handlers run in order and the editor is clean |
| Locations.LocationsEditor.LogInserts | olca-app/src/org/openlca/app/editors/locations/LocationsEditor.java:109-110 | every added location is inserted exactly once, in the listing order |
| Locations.LocationsEditor.LogDeletes | olca-app/src/org/openlca/app/editors/locations/LocationsEditor.java:112-113 | every removed location is deleted exactly once, in the listing order |
| Locations.LocationsEditor.LogUpdates | olca-app/src/org/openlca/app/editors/locations/LocationsEditor.java:115-121 | every changed location is updated once; the KMZ is loaded first exactly when the location has none |
| Locations.LocationsEditor.RemoveParameters | olca-app/src/org/openlca/app/editors/locations/LocationsEditor.java:128-136 | the loop over the impact methods logs exactly the removals that ParamOps lists, in order |
| Locations.LocationsEditor.RemoveMethodParameters | olca-app/src/org/openlca/app/editors/locations/LocationsEditor.java:133-135 | the loop over one method's shape files logs the removals of FileParamOps, file by file |
| Locations.LocationsEditor.RemoveFileParameters | olca-app/src/org/openlca/app/editors/locations/LocationsEditor.java:134-135 | for one shape file, one parameter removal is logged per KML-changed location, in order |
| Locations.LocationsEditor.CallSavedHandlers | olca-app/src/org/openlca/app/editors/locations/LocationsEditor.java:139-140 | every saved handler is called once, in registration order |
| Libraries.Present | olca-app/src/org/openlca/app/db/Libraries.java:124-129 | only mounted ids that the library folder resolves are kept |
| Libraries.PresentMember | olca-app/src/org/openlca/app/db/Libraries.java:124-129 | an id survives exactly when it is mounted and the folder has it; unknown ids are silently dropped |
| Libraries.Deps | olca-app/src/org/openlca/app/db/Libraries.java:142 | the direct dependencies are libraries of the folder |
| Libraries.ReachStep | olca-app/src/org/openlca/app/db/Libraries.java:142-147 | a dependency of a reachable library is reachable |
| Libraries.ClosedHoldsChain | olca-app/src/org/openlca/app/db/Libraries.java:134-148 | a set that holds the mounted libraries and is closed under dependencies holds the end of every dependency chain |
| Libraries.EnqueueDependencies | olca-app/src/org/openlca/app/db/Libraries.java:142-147 | after the loop, every dependency is handled or queued, the old queue is kept as a prefix with the new names after it, and the queue holds only reachable libraries |
| Libraries.Enqueued | olca-app/src/org/openlca/app/db/Libraries.java:146 | a queued dependency of a reachable library keeps the queue within the reachable libraries |
| Libraries.Visit | olca-app/src/org/openlca/app/db/Libraries.java:135-147 | a head handled before is skipped: handled and libs stay and the queue loses its head. Otherwise exactly the head joins handled, it joins libs exactly when it has matrices, and the rest of the queue stays in front. Either way the traversal invariant holds and the unhandled libraries, or else the queue, strictly shrink, so each name is processed at most once |
| Libraries.HandleNext | olca-app/src/org/openlca/app/db/Libraries.java:138-147 | a head not handled yet joins handled, joins libs exactly when it has matrices, and has its unhandled, unqueued dependencies queued after the rest of the queue |
| Libraries.SkipHandled | olca-app/src/org/openlca/app/db/Libraries.java:135-137 | polling a name that was handled before and skipping it keeps the traversal invariant |
| Libraries.HandleHead | olca-app/src/org/openlca/app/db/Libraries.java:135-147 | marking the polled library handled, keeping it when it has matrices and queueing its dependencies keeps the traversal invariant |
| Libraries.ForCalculation | olca-app/src/org/openlca/app/db/Libraries.java:120-150 | with no active database the result is empty; otherwise the loop terminates and returns exactly the libraries with matrices among the mounted ones and their transitive dependencies |
| Libraries.Start | olca-app/src/org/openlca/app/db/Libraries.java:130-132 | the initial queue of mounted libraries, with nothing handled, satisfies the traversal invariant |
| Libraries.Finish | olca-app/src/org/openlca/app/db/Libraries.java:134-149 | when the queue is empty the collected libraries are exactly those a calculation needs |
| Libraries.Complete | olca-app/src/org/openlca/app/db/Libraries.java:134-148 | when the queue is empty the handled names are exactly the reachable libraries |
| Libraries.ReachedIsHandled | olca-app/src/org/openlca/app/db/Libraries.java:134-148 | a handled set that holds the mounted libraries and is closed under dependencies holds every reachable library |
| Libraries.CheckAllValid | olca-app/src/org/openlca/app/db/Libraries.java:162-170 | the result is true exactly when every library a calculation needs has a valid session, which includes the case of no database |
| Libraries.CheckValidity | olca-app/src/org/openlca/app/db/Libraries.java:152-160 | a descriptor from a library gets its library's session validity; a product system gets the all-libraries check; anything else is valid |
| Libraries.ReaderOf | olca-app/src/org/openlca/app/db/Libraries.java:78-100 | a reader is planned exactly when the library is given, a database is active, and a licensed library has session credentials. A licensed library is decrypted with its session's credentials, an unlicensed one is not decrypted |
| Libraries.ReaderOfId | olca-app/src/org/openlca/app/db/Libraries.java:64-70 | unknown library ids give no reader; known ones give what readerOf(Library) gives |
| Libraries.Utf8 | olca-app/src/org/openlca/app/db/Libraries.java:280 | a character is encoded in one to four bytes, and in one byte equal to it exactly when it is ASCII |
| Libraries.ReplacePlusOfPercent | olca-app/src/org/openlca/app/db/Libraries.java:280-281 | the "+" to "%20" replacement leaves percent-escapes alone |
| Libraries.DecodePercentBytes | olca-app/src/org/openlca/app/db/Libraries.java:280 | the upper-case "%XX" escapes decode back to their bytes |
| Libraries.DecodeOneByte | olca-app/src/org/openlca/app/db/Libraries.java:280 | one "%XX" escape with upper-case hex digits decodes to its byte, and decoding goes on after it |
| Libraries.DecodeEncodedChar | olca-app/src/org/openlca/app/db/Libraries.java:280-281 | each encoded character, a space included, decodes to its UTF-8 bytes |
| Libraries.SegmentRoundTrip | olca-app/src/org/openlca/app/db/Libraries.java:280-281 | percent-decoding (section 2.1 of RFC 3986) an encoded segment gives back the UTF-8 bytes of the segment |
| Libraries.SegmentChars | olca-app/src/org/openlca/app/db/Libraries.java:280-281 | an encoded segment holds only unreserved characters and '%', so no space, no '+' and no '/' |
| Libraries.SegmentHasNoSlash | olca-app/src/org/openlca/app/db/Libraries.java:280-282 | no encoded segment contains '/', so the appended separators are the only ones |
| Libraries.EncodeUrl | olca-app/src/org/openlca/app/db/Libraries.java:266-285 | null stays null; without "://", or without a '/' after the host, the stripped input is returned; otherwise the result is the stripped protocol, "://", the stripped host, and "/" plus the encoded stripped segment for each later piece |
| Libraries.AppendSegments | olca-app/src/org/openlca/app/db/Libraries.java:279-283 | the loop appends "/" and one encoded segment per piece, in order |
| Libraries.AppendStep | olca-app/src/org/openlca/app/db/Libraries.java:279-283 | one turn of the loop extends the URL by exactly the next encoded segment |
| Libraries.SplitAppendPiece | olca-app/src/org/openlca/app/db/Libraries.java:273 | splitting text extended by a separator and a separator-free piece gives the old pieces plus that piece |
| Libraries.EncodedSegmentAt | olca-app/src/org/openlca/app/db/Libraries.java:280 | the k-th encoded segment is the encoding of the stripped k-th piece |
| Libraries.PathSplits | olca-app/src/org/openlca/app/db/Libraries.java:279-283 | the encoded path splits at '/' into an empty lead piece followed by exactly the encoded segments |
| Libraries.PathRoundTrip | olca-app/src/org/openlca/app/db/Libraries.java:276-283 | split at '/', the encoded path has one piece per segment after the lead; each piece decodes to the UTF-8 bytes of its stripped original segment |
| Libraries.PiecesDecode | olca-app/src/org/openlca/app/db/Libraries.java:279-283 | every piece after the lead decodes to the UTF-8 bytes of the matching stripped segment |
| CreateLink.GraphOf | olca-app/src/org/openlca/app/editors/graphical/model/commands/CreateLinkCommand.java:85-91 | the graph is the target's when a target is set, else the source's, and none when neither end is set |
| CreateLink.LinkRoles | olca-app/src/org/openlca/app/editors/graphical/model/commands/CreateLinkCommand.java:51-81 | with both ends set: for a product flow the source provides and the target's exchange consumes; for a waste flow it is the other way round. The provider type comes from the provider's descriptor |
| CreateLink.OnlyFlowId | olca-app/src/org/openlca/app/editors/graphical/model/commands/CreateLinkCommand.java:47-51 | without a graph, or for a flow that is neither a product nor a waste flow, only the flow id is written |
| CreateLink.MissingSourceKeeps | olca-app/src/org/openlca/app/editors/graphical/model/commands/CreateLinkCommand.java:67-81 | an end that is not set leaves the fields it would write as they were |
| CreateLink.ProcessLink.constructor | olca-app/src/org/openlca/app/editors/graphical/model/commands/CreateLinkCommand.java:45-46 | a new process link starts with every id 0 |
| CreateLink.CreateLinkCommand.constructor | olca-app/src/org/openlca/app/editors/graphical/model/commands/CreateLinkCommand.java:22-24 | the command keeps the flow id and has no ends and no link yet |
| CreateLink.CreateLinkCommand.CanExecute | olca-app/src/org/openlca/app/editors/graphical/model/commands/CreateLinkCommand.java:26-29 | the command can run exactly when both ends are set |
| CreateLink.CreateLinkCommand.GetProcessLink | olca-app/src/org/openlca/app/editors/graphical/model/commands/CreateLinkCommand.java:44-83 | the existing link object is reused or a fresh one created; its flow id is always set, and its other fields are as LinkRule gives them. The exchange id is the internal id while the owning entity is dirty |
| CreateLink.CreateLinkCommand.CompleteWith | olca-app/src/org/openlca/app/editors/graphical/model/commands/CreateLinkCommand.java:127-136 | from a source drag the argument becomes the target, even when it is null; otherwise null clears the source, an unconnected exchange becomes the source, and a connected one changes nothing |
| SankeyModel.MinByIsMember | olca-app/src/org/openlca/app/results/analysis/sankey/SankeyDiagram.java:154-157 | Stream.min returns an element of the stream |
| SankeyModel.MinByIsMinimal | olca-app/src/org/openlca/app/results/analysis/sankey/SankeyDiagram.java:154-157 | under a total preorder, Stream.min's element is below or equal to every element |
| SankeyModel.MinByIsMinimalOn | olca-app/src/org/openlca/app/results/analysis/sankey/SankeyDiagram.java:162-166 | when the comparator is total and transitive on the stream's elements only, Stream.min's element is still below or equal to every element |
| SankeyModel.FlowOrderOrdersFlows | olca-app/src/org/openlca/app/results/analysis/sankey/SankeyDiagram.java:162-166 | when every flow result has a flow, the flow comparator is total and transitive on the result's flows |
| SankeyModel.DefaultSelection | olca-app/src/org/openlca/app/results/analysis/sankey/SankeyDiagram.java:149-167 | no result gives no selection. An impact is chosen only when there are impact results, and it is one of the result's impacts; otherwise the choice is one of the flows. There is no selection exactly when neither candidate list applies |
| SankeyModel.DefaultImpactHasLeastName | olca-app/src/org/openlca/app/results/analysis/sankey/SankeyDiagram.java:153-160 | with impact results, the default impact's name is no greater than that of any impact of the result |
| SankeyModel.DefaultFlowHasLeastName | olca-app/src/org/openlca/app/results/analysis/sankey/SankeyDiagram.java:149-167 | without impact results, and with flows that all have a flow, the default selection is a flow result whose flow name is no greater than that of any flow of the result |
| SankeyModel.ProductsSnoc | olca-app/src/org/openlca/app/results/analysis/sankey/SankeyDiagram.java:224-228 | one more traversed node adds its product to the registered products |
| SankeyModel.ProviderLinksMembers | olca-app/src/org/openlca/app/results/analysis/sankey/SankeyDiagram.java:236-245 | a node's links are exactly those to its providers that have created nodes |
| SankeyModel.LinksOfMembers | olca-app/src/org/openlca/app/results/analysis/sankey/SankeyDiagram.java:230-246 | a link is created exactly for each provider entry of a traversed node when both endpoints have created nodes; its share is the link share times the provider's share |
| SankeyModel.ProcessNode.constructor | olca-app/src/org/openlca/app/results/analysis/sankey/SankeyDiagram.java:225 | a process node wraps its Sankey node and product |
| SankeyModel.SystemNode.constructor | olca-app/src/org/openlca/app/results/analysis/sankey/SankeyDiagram.java:196-197 | a system node keeps its selection and cutoff and starts without process nodes |
| SankeyModel.SankeyDiagram.constructor | olca-app/src/org/openlca/app/results/analysis/sankey/SankeyDiagram.java:50-55 | the diagram starts routed, without a node, links or created nodes |
| SankeyModel.SankeyDiagram.SwitchRouting | olca-app/src/org/openlca/app/results/analysis/sankey/SankeyDiagram.java:210-215 | routing flips and the node, if any, takes the new value; the node and its process nodes stay, so two switches restore the state |
| SankeyModel.SankeyDiagram.BuildLinks | olca-app/src/org/openlca/app/results/analysis/sankey/SankeyDiagram.java:230-246 | the link loop creates exactly the links LinksOf lists, in traversal order |
| SankeyModel.SankeyDiagram.AddProviderLinks | olca-app/src/org/openlca/app/results/analysis/sankey/SankeyDiagram.java:236-245 | for one node, a link is added per provider whose product has a process node, with the link share times the provider share, in provider order |
| SankeyModel.SankeyDiagram.CreateNodes | olca-app/src/org/openlca/app/results/analysis/sankey/SankeyDiagram.java:223-228 | each traversed node gets one fresh process node, appended to the system node. It is registered under its product, replacing an older entry; the other entries stay |
| SankeyModel.SankeyDiagram.UpdateModel | olca-app/src/org/openlca/app/results/analysis/sankey/SankeyDiagram.java:217-247 | nodes as CreateNodes states, then createdLinks is exactly the links between created nodes; createdNodes keeps the entries of earlier updates |
| SankeyModel.SankeyDiagram.NewSystemNode | olca-app/src/org/openlca/app/results/analysis/sankey/SankeyDiagram.java:196-199 | a fresh system node with the selection and cutoff replaces the old one, the links are cleared, and the built nodes are materialised as UpdateModel states |
| SankeyModel.MaterialisedFromEmpty | olca-app/src/org/openlca/app/results/analysis/sankey/SankeyDiagram.java:217-247 | UpdateModel's outcome, on a system node that had no process nodes, is that each built node is wrapped in order, registered under its product, and linked |
| SankeyModel.SankeyDiagram.Update | olca-app/src/org/openlca/app/results/analysis/sankey/SankeyDiagram.java:187-204 | a null selection or a cutoff outside [0, 1] changes nothing. Otherwise a fresh system node with the selection, the cutoff and the current routing is shown; it holds one fresh process node per built node, in order, registered under its product over the earlier entries, and createdLinks is exactly the links between them |
| SankeyModel.SankeyDiagram.InitContent | olca-app/src/org/openlca/app/results/analysis/sankey/SankeyDiagram.java:139-147 | without a default selection an empty system node with cutoff 0.1 is shown and the diagram's node, links, created nodes and routing stay; otherwise the diagram ends as update states for the default selection and cutoff 0.01 |
| ImpactMethodPage.NewImpacts | olca-app/src/org/openlca/app/editors/lcia/ImpactMethodInfoPage.java:116-121 | at most one candidate per descriptor, none of them already in the method |
| ImpactMethodPage.NewImpactsMembers | olca-app/src/org/openlca/app/editors/lcia/ImpactMethodInfoPage.java:116-121 | an impact category is a candidate exactly when some impact-category descriptor resolves to it through the DAO and the method does not hold it yet |
| ImpactMethodPage.RemoveFactor | olca-app/src/org/openlca/app/editors/lcia/ImpactMethodInfoPage.java:135-138 | removing an impact's factor drops at most one factor |
| ImpactMethodPage.RemoveFactorKeepsOthers | olca-app/src/org/openlca/app/editors/lcia/ImpactMethodInfoPage.java:135-138 | removing an impact's factor keeps every factor of another impact, as often as before |
| ImpactMethodPage.RemoveFactorAbsent | olca-app/src/org/openlca/app/editors/lcia/ImpactMethodInfoPage.java:135-138 | when a set has no factor of the impact, getFactor gives null and the set is unchanged |
| ImpactMethodPage.RemoveFactorRepeated | olca-app/src/org/openlca/app/editors/lcia/ImpactMethodInfoPage.java:134-139 | with one factor per impact, a set listed several times loses the factor once, as if listed once |
| ImpactMethodPage.RemoveFactorsRepeated | olca-app/src/org/openlca/app/editors/lcia/ImpactMethodInfoPage.java:132-139 | with one factor per impact, a set listed several times ends the whole removal as if listed once |
| ImpactMethodPage.RemoveFactorsOnce | olca-app/src/org/openlca/app/editors/lcia/ImpactMethodInfoPage.java:132-139 | a set listed once loses one factor per selected impact |
| ImpactMethodPage.AppearancesCount | olca-app/src/org/openlca/app/editors/lcia/ImpactMethodInfoPage.java:134 | the number of times the inner loop visits a set is its multiplicity in the set list |
| ImpactMethodPage.DistinctAppearsOnce | olca-app/src/org/openlca/app/editors/lcia/ImpactMethodInfoPage.java:134 | in a set list without repeats, the inner loop visits each set once |
| ImpactMethodPage.RemoveEachSnoc | olca-app/src/org/openlca/app/editors/lcia/ImpactMethodInfoPage.java:132-133 | one more selected impact means one more List.remove |
| ImpactMethodPage.RemoveFactorsTimesSnoc | olca-app/src/org/openlca/app/editors/lcia/ImpactMethodInfoPage.java:132-139 | one more selected impact means one more round of factor removals from a set, one per appearance |
| ImpactMethodPage.ImpactsOfRemoveFactor | olca-app/src/org/openlca/app/editors/lcia/ImpactMethodInfoPage.java:135-137 | removing a factor removes one occurrence of its impact from the set's impacts |
| ImpactMethodPage.RemoveFactorOfOneEach | olca-app/src/org/openlca/app/editors/lcia/ImpactMethodInfoPage.java:134-139 | with one factor per impact, removal keeps that shape and leaves exactly the factors of the other impacts |
| ImpactMethodPage.RemoveFactorsExact | olca-app/src/org/openlca/app/editors/lcia/ImpactMethodInfoPage.java:132-140 | with one factor per impact, removing a selection leaves exactly the factors whose impact is not selected |
| ImpactMethodPage.RemoveFirstKeepsDistinct | olca-app/src/org/openlca/app/editors/lcia/ImpactMethodInfoPage.java:133 | removing from a list without repeats keeps it without repeats |
| ImpactMethodPage.RemoveEachExact | olca-app/src/org/openlca/app/editors/lcia/ImpactMethodInfoPage.java:132-133 | in a list without repeats, removing a selection leaves exactly the unselected categories |
| ImpactMethodPage.ImpactMethodEditor.FireCategoryChange | olca-app/src/org/openlca/app/editors/lcia/ImpactMethodInfoPage.java:145-148 | the impact-category-change event is emitted and the editor is dirty |
| ImpactMethodPage.ImpactMethodEditor.ShowIndicators | olca-app/src/org/openlca/app/editors/lcia/ImpactMethodInfoPage.java:70-73 | the method's list is sorted in place by name, keeping its elements and the input order of equal names, and then shown |
| ImpactMethodPage.ImpactMethodEditor.OnAdd | olca-app/src/org/openlca/app/editors/lcia/ImpactMethodInfoPage.java:111-127 | an empty drop, or one without new candidates, changes nothing: no event and no dirtying. Otherwise the candidates are appended in input order after the kept existing list, which is shown; the event fires and the editor is dirty |
| ImpactMethodPage.ImpactMethodEditor.RemoveFactorFromSets | olca-app/src/org/openlca/app/editors/lcia/ImpactMethodInfoPage.java:134-139 | every normalisation and weighting set loses one factor of the impact per appearance in the set list, while it has one |
| ImpactMethodPage.ImpactMethodEditor.RemoveImpact | olca-app/src/org/openlca/app/editors/lcia/ImpactMethodInfoPage.java:133-139 | one impact leaves the list, and every set loses its factor of the impact once per appearance in the set list |
| ImpactMethodPage.ImpactMethodEditor.RemoveSelection | olca-app/src/org/openlca/app/editors/lcia/ImpactMethodInfoPage.java:132-140 | each selected impact in turn leaves the list and, once per appearance, every set; nothing else changes |
| ImpactMethodPage.ImpactMethodEditor.OnRemove | olca-app/src/org/openlca/app/editors/lcia/ImpactMethodInfoPage.java:129-143 | the selection leaves the list and every set, once per appearance of the set, the list is shown, and the event fires and dirties the editor on every call |
| ModelTreeView.GetText | olca-app/src/org/openlca/app/cloud/ui/compare/ModelTree.java:178-180 | anything that is not a node has no label |
| ModelTreeView.IsEmptyArrayElement | olca-app/src/org/openlca/app/cloud/ui/compare/ModelTree.java:207-215 | a node with an element on this side is never an empty array element |
| ModelTreeView.LabelStartsWithKey | olca-app/src/org/openlca/app/cloud/ui/compare/ModelTree.java:177-205 | every label of a node begins with the node's key |
| ModelTreeView.MissingValueLabel | olca-app/src/org/openlca/app/cloud/ui/compare/ModelTree.java:184-215 | with no element on this side, the label is null exactly when the node or its parent is a gap in an array. It throws exactly at a root, or at a root parent that is no array and has no value; otherwise it reads "key: null" |
| ModelTreeView.PresentValueLabel | olca-app/src/org/openlca/app/cloud/ui/compare/ModelTree.java:191-204 | a present value is labelled "key: null" exactly for a JSON null, an empty array, or a primitive or reference name that reads "null"; it throws exactly for a reference without a readable name; it is never unlabelled |
| ModelTreeView.GetBackground | olca-app/src/org/openlca/app/cloud/ui/compare/ModelTree.java:223-230 | the only background ever given is the highlight (255, 255, 128) |
| ModelTreeView.HighlightExactlyWhenDifferent | olca-app/src/org/openlca/app/cloud/ui/compare/ModelTree.java:223-230 | a node is highlighted exactly when its local and remote values differ; other items get no background |
| ModelTreeView.GetElements | olca-app/src/org/openlca/app/cloud/ui/compare/ModelTree.java:138-148 | the children of the first array entry when it is a node; null for non-array, empty or non-node input |
| ModelTreeView.GetChildren | olca-app/src/org/openlca/app/cloud/ui/compare/ModelTree.java:150-156 | a node's children; null for anything else |
| ModelTreeView.HasChildrenAgrees | olca-app/src/org/openlca/app/cloud/ui/compare/ModelTree.java:164-170 | hasChildren holds exactly when getChildren gives a non-empty list |
| ModelTreeView.ModelTree.SetSelection | olca-app/src/org/openlca/app/cloud/ui/compare/ModelTree.java:120 | the viewer takes the selection, and the counterpart mirrors it unless this side is paused; both pause flags are as before |
| ModelTreeView.ModelTree.SelectionChanged | olca-app/src/org/openlca/app/cloud/ui/compare/ModelTree.java:116-122 | while paused nothing changes; otherwise the counterpart takes the selection once, without re-entering this listener, and the flag is reset afterwards |
| Colors.ParseHexPair | olca-app/src/org/openlca/app/util/Colors.java:59-61 | Integer.parseInt of two characters in base 16 (a sign is allowed) gives a value in -15..255 or fails |
| Colors.ParseHex | olca-app/src/org/openlca/app/util/Colors.java:44-68 | every managed colour fromHex yields is a valid RGB value |
| Colors.HexBytePair | olca-app/src/org/openlca/app/util/Colors.java:59-61 | two upper-case hex digits parse back to the component |
| Colors.TrimKeeps | olca-app/src/org/openlca/app/util/Colors.java:47 | trimming keeps a text's leading characters when the first and the last kept one are visible |
| Colors.HexBodyOf | olca-app/src/org/openlca/app/util/Colors.java:47-50 | after trimming and dropping one '#', the six characters after the '#' come first |
| Colors.SuffixIgnored | olca-app/src/org/openlca/app/util/Colors.java:47-62 | only the first six characters count, whatever follows them, and the leading '#' may be left out |
| Colors.HexRoundTrip | olca-app/src/org/openlca/app/util/Colors.java:44-62 | writing a colour as "#RRGGBB" and parsing it gives the colour back, whatever text follows |
| Colors.ColorCache.Get | olca-app/src/org/openlca/app/util/Colors.java:35-42 | the cached colour is returned unless it is missing or disposed; then a fresh colour is created and cached under its value |
| Colors.ColorCache.GetComponents | olca-app/src/org/openlca/app/util/Colors.java:70-73 | components in 0..255 go through the same cache: a live cached colour is reused and the cache is unchanged, otherwise a fresh colour is cached under the value. Other components throw as the RGB constructor does, and the cache is unchanged |
| Colors.ColorCache.FromHex | olca-app/src/org/openlca/app/util/Colors.java:44-68 | the Java steps agree with ParseHex: white for null or short input, black for an unparseable or out-of-range pair, else the parsed value looked up in the cache, reusing a live colour and otherwise caching a fresh one |
| Colors.ColorCache.FromPairs | olca-app/src/org/openlca/app/util/Colors.java:54-67 | the first six characters parse as three hex pairs: black when a pair fails or is out of range, else the three values looked up in the cache, reusing a live colour and otherwise caching a fresh one |
| Colors.ColorCache.ErrorColor | olca-app/src/org/openlca/app/util/Colors.java:30-33 | the error colour is (255, 180, 180), looked up in the cache as get does |
| Colors.ColorCache.LinkBlue | olca-app/src/org/openlca/app/util/Colors.java:83-85 | the link colour is (25, 76, 127), looked up in the cache as get does |
| Colors.ColorCache.Gray | olca-app/src/org/openlca/app/util/Colors.java:87-89 | gray is (128, 128, 128), looked up in the cache as get does |
| GraphSettings.EditedTheme | olca-app/src/org/openlca/app/editors/graphical/action/GraphSettingsAction.java:99-102 | after the dialog's events, the theme is the last one picked, or the old one when none was picked |
| GraphSettings.StepTheme | olca-app/src/org/openlca/app/editors/graphical/action/GraphSettingsAction.java:99-102 | only a theme selection changes the theme, to the selected entry of the combo |
| GraphSettings.InitialSize | olca-app/src/org/openlca/app/editors/graphical/action/GraphSettingsAction.java:105-115 | 0 < width <= 600 and 0 < height <= 350; each is the display's value or the default, and a display value in range is kept |
| GraphSettings.InitialSizeIdempotent | olca-app/src/org/openlca/app/editors/graphical/action/GraphSettingsAction.java:105-115 | applying the size rule to its own result changes nothing |
| GraphSettings.ThemeIndex | olca-app/src/org/openlca/app/editors/graphical/action/GraphSettingsAction.java:88-98 | the index is the last theme whose id equals the current one (null ids match), or 0 when there is none |
| GraphSettings.GraphConfig.Copy | olca-app/src/org/openlca/app/editors/graphical/action/GraphSettingsAction.java:37 | the dialog edits a fresh configuration with the same settings |
| GraphSettings.GraphConfig.ApplyOn | olca-app/src/org/openlca/app/editors/graphical/action/GraphSettingsAction.java:39 | the editor's configuration takes the edited settings |
| GraphSettings.GraphConfig.Handle | olca-app/src/org/openlca/app/editors/graphical/action/GraphSettingsAction.java:56-102 | picking combo entry i sets theme i, and each checkbox sets its flag |
| GraphSettings.Run | olca-app/src/org/openlca/app/editors/graphical/action/GraphSettingsAction.java:33-44 | with no editor nothing happens. When confirmed, the editor's settings become the edited copy's, and the editor is refreshed once and dirty. When cancelled, the editor is untouched |
| StartPage.ArchSuffix | olca-app/src/org/openlca/app/editors/StartPage.java:72-81 | "amd64" gives " 64 bit", "x86" and "i386" give " 32 bit", any other or a missing arch gives nothing |
| StartPage.VersionDistinguishesBitness | olca-app/src/org/openlca/app/editors/StartPage.java:70-83 | two version lines for the same version and system are equal exactly when the architectures fall in the same bitness class |
| StartPage.Lang | olca-app/src/org/openlca/app/editors/StartPage.java:62-63 | the language is the nl argument, and "en" without one |

## Left out

- Library I/O is not modelled: import from files, URLs and streams, license reading, temporary files and LibReader construction and decryption (lines 194-261 of Libraries.java). It is file and network work; readerOf is modelled only as the decision of whether, and with which credentials, a reader is built.
- `readersForCalculation` and the `fill`, `fillExchangesOf` and `fillFactorsOf` helpers of Libraries.java (lines 107-118 and 172-192) are not modelled. They only compose readerOf over forCalculation's set, or read through external readers.
- The Sankey builder, with its pruning, share computation and node-count cap, is a parameter (`build`, `linkShare`). It lives outside the repository. `App.runWithProgress` only moves the work to a background thread, so `update` is modelled as one sequential step.
- GEF and SWT viewer setup, zoom, key handlers and edit parts are left out, as is ModelTree's scroll-bar syncing (lines 66-109 of ModelTree.java). They are display concerns.
- CreateLinkCommand's `execute`, `undo`, `redo` and `refreshNodes` edit the graph's edit parts and maps; only the link rule and the command's own fields are modelled.
- Colour disposal on workbench shutdown (lines 99-113 of Colors.java) is the SWT resource lifecycle. The `disposed` flag is kept so that `Get` can be stated.
- Colors.ParseHexPair: only ASCII hex digits are modelled; Character.digit also accepts other Unicode digits and letters.
- JavaText.ToLowerCase lower-cases ASCII letters only, not the whole of Unicode.
- Java strings are UTF-16; they are modelled as sequences of Unicode scalar values.
- `ProviderType.of`, `JsonUtil.isReference`, `JsonNode.hasEqualValues`, `Strings.compare`, `LibrarySession.isValid`, `retrieveSession` and `isDirty(entity)` are parameters: they are not in the repository.
- `JsonNode.getElement` is not part of this model; it is a field of the node.
- `GraphConfig.from` and `applyOn` are not part of this model; they are taken to carry the four settings the dialog edits.
- Identity is modelled as value equality. Locations and impact categories are compared by value, where Java uses the entities' equals. Libraries are identified by their folder name.
- `RootDescriptor.isFromLibrary` is modelled as the descriptor naming a library.
- ModelTree's SelectionChangedListener is folded into the tree that owns it; the listener's `pauseListening` flag is a field of the tree.
- The location DAO's effects, and setting the KMZ data, are entries of a ghost log, not a database.
- The figure repaint after the settings dialog is left out; it is a display concern.
- SankeyModel.SankeyDiagram.Update: the cutoff is a real number. A NaN cutoff passes Java's range guard (SankeyDiagram.java:188) and reaches the builder; the model cannot represent it.
- SankeyModel.DefaultFlowHasLeastName: stated only when every flow result has a flow. The flow comparator returns 0 when either flow is null, which is not transitive, so Stream.min then promises no least name.
- `createdNodes` in the Sankey diagram is never cleared between updates, as in the source. UpdateModel states this (old entries survive unless a product is built again) rather than treating it as an error.
- EncodeUrl follows String.split literally. A second "://" in a URL, and everything after it, is dropped, and so are trailing empty path segments. The model reproduces this rather than correcting it.
