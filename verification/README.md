# Karpenter provider for Hetzner Cloud: a verified model

The provider turns Karpenter NodeClaims into Hetzner servers. Three stateful
parts carry its correctness, and they feed each other:

* **The server-type catalogue cache** (`InstanceTypeProvider.dfy`,
  `RefreshProtocol.dfy`, `CachePolicy.dfy`, `Catalogue.dfy`,
  `UnavailableCache.dfy`). A six-hour cache refreshed under a second mutex, an
  expired copy served when a refresh fails, and availability computed live from a
  five-minute map of pairs that failed for capacity. It is modelled twice: as
  classes, where the point is which objects are shared with the cache, and as a
  step system with any number of interleaved callers. Both are proved against the
  same function, `CachePolicy.Serve`.
* **The image status of a node class** (`NodeClass.dfy`,
  `NodeClassController.dfy`, `NodeClassRuns.dfy`, `ImageFamily.dfy`,
  `LabelSelector.dfy`). The controller merges each lookup with what status holds,
  writer and reader agreeing only through the generation stamped on the
  `ImagesReady` condition.
* **Selection and launch** (`Selection.dfy`, `CloudProvider.dfy`, `Drift.dfy`,
  `Instance.dfy`, `ProviderID.dfy`, `PossibleLaunches.dfy`). `Create` scans for the cheapest type, gates
  on images, launches, and feeds capacity errors back into the first part.

`Sessions.dfy` runs them together: any sequence of `GetInstanceTypes` and `Create`
calls on one provider, and `Create` followed by `IsDrifted`. `ConcurrentCreates.dfy`
is the capacity fallback with several calls of `Create` in flight.

Methods and classes follow the Go code step by step and are each proved equal to
a function on values; the lemmas are about those functions. `Basics.dfy` and
`Text.dfy` hold the shared vocabulary.

Reading notes:

* Time is a `nat` of nanoseconds and a clock reading is never earlier than the
  one before. Prices are `real`.
* Architectures and label keys are datatypes whose values are exactly the strings
  (`Basics.SpellingInjective`, `Basics.EveryStringIsAKey`, `Basics.ArchsAreStrings`).
  `karpenter.sh/nodepool` is one key, on a claim and on a server.
* Karpenter's requirement algebra is a pair of predicates on the labels of a type
  and of an offering. `Cheapest` is the first offering of least price.
* `List` takes what another caller stored while it waited for the refresh lock as
  a parameter (`meanwhile`), and the API's answer as another (`fetch`).
* hcloud records the server a create request describes (`Instance.Recorded`); its
  response may leave the image out. A placement group that cannot be resolved, or
  any other failure before the API call, is the answer `Rejected(OtherError)`: an
  ordinary error, no server, no mark.
* In `NodeClassRuns`, a reconcile or a launch may read any version ever stored,
  and a computed status may be written late, more than once or never. That
  includes every behaviour of an API server that rejects conflicting writes.

Where the code and its own comments disagree, the model follows the code: the
comment at pkg/cloudprovider/cloudprovider.go:311-313 says the zone label always
matches where the server is, but labels already on the claim are merged over it
(lines 317-320). `Drift.ZoneLabelMatchesIff` gives the exact condition, in terms of
the claim, its requirements and the node class.

Properties that are false as first stated, each with its exact condition:
`Unavailable.KeyUnambiguousIff` (the NUL-joined key),
`Catalogue.ArchRoundTripIff` and `NodeClassRuns.ArchitectureSafety` (a server
type of a third architecture gets an x86 image),
`Drift.NeverDriftedIff` (a fresh claim can be drifted; `CreatedClaimNotDriftedIff`
says which choices leave it so), `Drift.ZoneLabelMatchesIff`,
`ProviderID.FormatAfterParseIff` (`FormatAfterParseNotIdentity` is an input that
fails) and `LabelSelector.UnambiguousIff` (`CommaCollides` is a pair that fails).

## Model

| member | source | states |
|---|---|---|
| RefreshProtocol.OneCallInFlight | pkg/providers/instancetype/instancetype.go:87-98 | in every reachable state, for any number of interleaved callers, at most one is inside client.All |
| RefreshProtocol.CallsStartExpired | pkg/providers/instancetype/instancetype.go:87-98 | every API call starts no earlier than the expiry of each store made before it, and no later than each store made after it |
| RefreshProtocol.RefreshRate | pkg/providers/instancetype/instancetype.go:81-158 | a run of duration D stores at most 1 + D / 6h catalogues, whatever the number of callers |
| RefreshProtocol.AnswersRefineServe | pkg/providers/instancetype/instancetype.go:81-128 | each completed call in any interleaving got what one sequential request computes from what the cache really held at its entry and under the lock, and from its own fetch |
| RefreshProtocol.AnswerCases | pkg/providers/instancetype/instancetype.go:81-128 | in any interleaving a caller is answered with an unexpired catalogue it found, else what its fetch brought, else the expired catalogue, else an error |
| RefreshProtocol.FetchesAreStored | pkg/providers/instancetype/instancetype.go:98-158 | in every run each successful answer of the API is stored exactly once, in the order they came, but for one its caller has not stored yet |
| RefreshProtocol.FetcherGetsItsFetch | pkg/providers/instancetype/instancetype.go:98-127 | a caller the API answered lists what it answered, as stored at that time |
| RefreshProtocol.CallsAreLogged | pkg/providers/instancetype/instancetype.go:98-98 | the history of API calls is that of the callers that made one, in order |
| RefreshProtocol.ListingsFromLastFetch | pkg/providers/instancetype/instancetype.go:81-158 | a listing's catalogue is the last one stored at its read step; a hit is younger than the TTL, a stale serve is past it |
| RefreshProtocol.ListingsReflectMarks | pkg/providers/instancetype/instancetype.go:168-202 | in every reachable listing an offering is available iff the catalogue has it so and no mark of exactly its pair was less than a TTL old when that offering was looked at, marks landing between two offerings of one listing included |
| RefreshProtocol.NoErrorAfterSuccess | pkg/providers/instancetype/instancetype.go:98-119 | once any fetch has succeeded no caller starts to fail, for every continuation of the run |
| RefreshProtocol.StepKeepsInv | pkg/providers/instancetype/instancetype.go:81-158 | every step of every caller, the clock and MarkUnavailable keeps the protocol invariant |
| RefreshProtocol.NeverStuck | pkg/providers/instancetype/instancetype.go:81-128 | a state with an unfinished caller always has an enabled caller step |
| RefreshProtocol.StepsBounded | pkg/providers/instancetype/instancetype.go:81-128 | N callers take at most 9 N steps in any run |
| RefreshProtocol.AllCanFinish | pkg/providers/instancetype/instancetype.go:81-128 | from every reachable state all callers can finish with no time passing |
| RefreshProtocol.WarmReaderNeverWaits | pkg/providers/instancetype/instancetype.go:72-85 | a caller arriving while the cache is fresh finishes by its own steps, whoever holds the refresh lock, changing nothing else |
| CachePolicy.ServeMeaning | pkg/providers/instancetype/instancetype.go:81-128 | what is served is what the cache is left holding; failure only with nothing ever fetched; a hit is younger than the TTL; the cache changes only by a successful fetch after expiry |
| InstanceTypeProvider.Provider.constructor | pkg/providers/instancetype/instancetype.go:53-68 | an empty cache and an empty five-minute unavailable map |
| InstanceTypeProvider.Provider.List | pkg/providers/instancetype/instancetype.go:81-128 | an unexpired catalogue is served unchanged, on entry or under the lock; otherwise a successful fetch is stored for six hours and served, and a failed one leaves the cache and serves it expired, an error only when it is empty; the result is the cached catalogue filtered and overlaid, in fresh unshared objects not reachable from the cache |
| InstanceTypeProvider.Provider.Refresh | pkg/providers/instancetype/instancetype.go:98-127 | from the API call on: store, or stale copy with the expiry not extended, or error |
| InstanceTypeProvider.Provider.FreshCache | pkg/providers/instancetype/instancetype.go:131-138 | the cached objects iff present and unexpired at the reading |
| InstanceTypeProvider.Provider.StaleCache | pkg/providers/instancetype/instancetype.go:141-148 | the cached objects whatever their age, with that age |
| InstanceTypeProvider.Provider.Store | pkg/providers/instancetype/instancetype.go:151-158 | the cache is the given catalogue with a restarted TTL |
| InstanceTypeProvider.Provider.MarkUnavailable | pkg/providers/instancetype/instancetype.go:164-166 | exactly the pair's entry is set to expire a TTL from now |
| InstanceTypeProvider.Provider.ApplyAvailability | pkg/providers/instancetype/instancetype.go:178-202 | fresh, unshared copies at the type and offering level, available iff the original is and its pair is not marked at its own reading |
| InstanceTypeProvider.FilterByLocations | pkg/providers/instancetype/instancetype.go:331-360 | the location filter; offerings are shared with the input, and with no locations so are the types |
| InstanceTypeProvider.ToInstanceType | pkg/providers/instancetype/instancetype.go:205-288 | a fresh type with one offering per pricing entry that names a location |
| Catalogue.HourlyNetPrice | pkg/providers/instancetype/instancetype.go:317-327 | usable iff one figure is finite and positive, hourly before monthly/730; an unusable price is 0 |
| Catalogue.ArchRoundTripIff | pkg/providers/instancetype/instancetype.go:205-209 | the architecture read back from the type's label is the server type's iff it is x86 or ARM |
| Catalogue.TypeLabelsMeaning | pkg/providers/instancetype/instancetype.go:267-273 | the labels of an instance type, key by key, in terms of its server type |
| Catalogue.OfferingsInOrder | pkg/providers/instancetype/instancetype.go:237-258 | offerings stand in the order of their pricing entries |
| Catalogue.ZonesInOrder | pkg/providers/instancetype/instancetype.go:342-348 | the location filter keeps the order of offerings, which decides ties |
| Catalogue.TypesInOrder | pkg/providers/instancetype/instancetype.go:337-360 | and that of types |
| Catalogue.OverlayMeaning | pkg/providers/instancetype/instancetype.go:178-202 | the overlay changes availability only: available iff the catalogue has it so and no mark of exactly the pair was less than a TTL old at its reading |
| Catalogue.OfferingsOfMembers | pkg/providers/instancetype/instancetype.go:237-258 | the offerings are exactly those of the pricing entries with a location, priced or not |
| Catalogue.KeepTypesMembers | pkg/providers/instancetype/instancetype.go:340-359 | a filtered type is listed iff it is a catalogue type stripped of offerings elsewhere with one left |
| Catalogue.KeepZonesMembers | pkg/providers/instancetype/instancetype.go:342-348 | the kept offerings are exactly those in a requested location |
| Catalogue.AvailableIsPricedAndLocal | pkg/providers/instancetype/instancetype.go:178-360 | through the whole pipeline an available offering is a priced pricing entry of a server type, at a positive price, in a requested location |
| Unavailable.MapRefinesHistory | pkg/providers/instancetype/unavailable.go:19-36 | under a monotone clock and NUL-free type names the map reads unavailable iff some mark of exactly that pair is less than a TTL old |
| Unavailable.KeyInjective | pkg/providers/instancetype/unavailable.go:23 | keys of NUL-free type names are equal only for equal pairs |
| Unavailable.KeyUnambiguousIff | pkg/providers/instancetype/unavailable.go:23 | a pair shares its key with no other pair iff neither name holds NUL |
| Unavailable.UnavailableCache.MarkUnavailable | pkg/providers/instancetype/unavailable.go:25-29 | the history grows by this mark at the clock's new value and the map by its expiry |
| Unavailable.UnavailableCache.IsUnavailable | pkg/providers/instancetype/unavailable.go:31-36 | the map's reading at the clock's new value, which is the history's for NUL-free type names |
| NodeClassRuns.GenerationSafety | pkg/controllers/nodeclass/controller.go:106-190 | in every run of edits, reconciles, late or lost writes and launches, each launched image came from a lookup with the selector of the generation Create read |
| NodeClassRuns.ArchitectureSafety | pkg/cloudprovider/cloudprovider.go:92-134 | in every run a launched image has its server type's architecture iff that is x86 or ARM, on both image paths |
| NodeClassRuns.StatusArchitectures | pkg/controllers/nodeclass/controller.go:266-300 | every entry of every stored status is filed under its image's architecture, one per architecture |
| NodeClassRuns.CreateIsALaunch | pkg/cloudprovider/cloudprovider.go:154-265 | whatever Create decides to launch from a real listing is one of the launches the run theorems speak of |
| NodeClassRuns.StepKeepsInv | pkg/controllers/nodeclass/controller.go:123-196 | spec edits, reconciles of any past version, writes and launches keep every entry sourced under the generation its condition records |
| NodeClassRuns.UnconditionedEntriesWouldBeTrusted | pkg/controllers/nodeclass/controller.go:75-129 | entries without an ImagesReady condition would be carried and stamped current, so the safety rests on their being unreachable |
| NodeClassController.Reconcile | pkg/controllers/nodeclass/controller.go:68-200 | the object's status becomes exactly Reconciled of the old one; a write is issued iff it changed |
| NodeClassController.MergeResolutions | pkg/controllers/nodeclass/controller.go:134-150 | the merge loop: fresh answers, carried entries for transient failures, nothing for definitive ones |
| NodeClassController.ResolveImages | pkg/controllers/nodeclass/controller.go:266-300 | one outcome per architecture, a wrong-architecture image counted as definitive |
| NodeClassController.PassMeaning | pkg/controllers/nodeclass/controller.go:123-190 | a pass leaves exactly what each architecture keeps; it carries entries iff their condition is of this generation or absent |
| NodeClassController.PassReports | pkg/controllers/nodeclass/controller.go:68-190 | ImagesReady is True iff some architecture is left with an image, Unknown with ImageResolutionErrored iff none is and a lookup was unreadable, False with ImageResolutionFailed iff none is and both were definitive; each check's condition says what it found |
| NodeClassController.PassLeaves | pkg/controllers/nodeclass/controller.go:123-150 | an architecture is left with the image found for it, with nothing on a definitive miss or a wrong architecture, and when unreadable with status's last entry for it if that is of this generation |
| NodeClassController.PassShape | pkg/controllers/nodeclass/controller.go:134-163 | at most one entry for x86, then at most one for ARM, and no other |
| NodeClassController.PassStampsGeneration | pkg/controllers/nodeclass/controller.go:162-190 | every branch stamps ImagesReady with the generation the pass ran under |
| NodeClassController.MergeIsTwoRegisters | pkg/controllers/nodeclass/controller.go:123-190 | over any run of passes the merged list is an x86 and an ARM register run independently |
| NodeClassController.RegisterIsLastWord | pkg/controllers/nodeclass/controller.go:123-190 | a register holds an image iff some pass found it and every later one was of the same generation and unreadable |
| NodeClassController.PassIsFixpoint | pkg/controllers/nodeclass/controller.go:68-196 | from any status, repeating a pass with the same answers changes no condition and no entry |
| NodeClass.HCloudNodeClass.StatusConditions | pkg/apis/v1/hcloudnodeclass_types.go:133-135 | constructing the set adds each absent dependent condition as Unknown at the current generation |
| NodeClass.HCloudNodeClass.Set | pkg/apis/v1/hcloudnodeclass_types.go:129-135 | a condition write through the set: initialise, then replace or append, stamped with the current generation |
| NodeClass.HCloudNodeClass.ResolvedImagesGeneration | pkg/apis/v1/hcloudnodeclass_types.go:166-173 | the raw condition's observed generation, zero if absent, changing nothing |
| NodeClass.HCloudNodeClass.CurrentResolvedImages | pkg/apis/v1/hcloudnodeclass_types.go:183-188 | the entries iff resolved under the current generation |
| NodeClass.WrittenGeneration | pkg/apis/v1/hcloudnodeclass_types.go:154-165 | a write of ImagesReady stamps the generation; any other write stamps it only where ImagesReady was absent |
| NodeClass.WrittenMeaning | pkg/apis/v1/hcloudnodeclass_types.go:129-165 | a condition write keeps every other condition in place, replaces those of its type, and appends each absent dependent once, Unknown at the current generation |
| NodeClass.ObservedGenerationMeaning | pkg/apis/v1/hcloudnodeclass_types.go:166-173 | the generation read is that of the first ImagesReady condition |
| NodeClass.AbsentFailsSafe | pkg/apis/v1/hcloudnodeclass_types.go:160-165 | without the condition no entry is current from generation one on, and all are at generation zero |
| ImageFamily.ResolveUbuntu | pkg/providers/imagefamily/imagefamily.go:101-126 | transient iff unreadable, permanent iff nothing matches, else the first match |
| ImageFamily.ResolveTalos | pkg/providers/imagefamily/imagefamily.go:129-160 | transient iff unreadable, permanent iff nothing matches, else the newest match, first among ties |
| ImageFamily.Resolve | pkg/providers/imagefamily/imagefamily.go:75-97 | family, labels and architecture fix one query and one matching rule; an unsupported family is permanent without a query |
| ImageFamily.ResolveMeaning | pkg/providers/imagefamily/imagefamily.go:75-97 | one query for the architecture and labels, of system images for Ubuntu and snapshots for Talos; an image found has the family's word as a slice of its description, in any case, and the version as a slice of the lower-cased one |
| ImageFamily.UbuntuMeaning | pkg/providers/imagefamily/imagefamily.go:101-126 | no earlier image is so named, and permanent means none is |
| ImageFamily.TalosMeaning | pkg/providers/imagefamily/imagefamily.go:129-160 | no newer image is so named, nor an earlier one as new |
| Text.ToLowerMeaning | pkg/providers/imagefamily/imagefamily.go:101-160 | A to Z are lowered and every other character stays |
| Text.ContainsIff | pkg/providers/imagefamily/imagefamily.go:116-118 | containing a part is having it as a slice |
| ImageFamily.AnswersUnique | pkg/providers/imagefamily/imagefamily.go:101-160 | each matching rule admits one answer |
| LabelSelector.LabelSelectorString | pkg/providers/imagefamily/imagefamily.go:19-33 | whatever the map's iteration order, the one string that renders the map |
| LabelSelector.RenderInvertible | pkg/providers/imagefamily/imagefamily.go:16-33 | for keys without comma or equals sign and values without comma the string parses back to the map, so equal strings mean equal maps |
| LabelSelector.UnambiguousIff | pkg/providers/imagefamily/imagefamily.go:16-33 | a rendered string is rendered by no other map iff its map has at most one entry and no equals sign inside it |
| Selection.ScanFindsLeast | pkg/cloudprovider/cloudprovider.go:193-219 | the winner is the least by price then name over all admitted, image-cleared types with a usable offering, and there is none only if there is no such type |
| Selection.SelectedIsLeast | pkg/cloudprovider/cloudprovider.go:193-219 | whenever an available, admitted offering of an admitted type with an image exists, one is selected, none such costs less, and of those that cost the same none of another type has a smaller name |
| Text.LexLessIff | pkg/cloudprovider/cloudprovider.go:215-216 | a name is smaller iff it is a proper prefix or has the smaller character where the two first differ |
| Selection.ScanCauses | pkg/cloudprovider/cloudprovider.go:185-213 | capacity is recorded iff a cleared type had no usable offering, a missing image iff an admitted type was shut out |
| Selection.SelectionOrderIndependent | pkg/cloudprovider/cloudprovider.go:187-219 | reordering types with distinct names leaves the selected type and offering the same |
| Selection.CheapestMeaning | pkg/cloudprovider/cloudprovider.go:210 | the first of the cheapest of the available, admitted offerings, none only if there are none |
| Selection.LaunchedOfferingIsReal | pkg/cloudprovider/cloudprovider.go:170-219 | what is selected from a real listing is a priced entry of a server type, positive, in the node class's locations |
| Selection.EmptySelectionBlame | pkg/cloudprovider/cloudprovider.go:229-244 | an empty selection is NodeClassNotReady iff some type is admitted and every admitted one lacks an image, otherwise capacity |
| Selection.BlameMeaning | pkg/cloudprovider/cloudprovider.go:229-244 | the same in terms of the types and images themselves: images are current and none is of an admitted type's architecture |
| Selection.RefusedForImage | pkg/cloudprovider/cloudprovider.go:252-265 | with a type selected, the refusal is NodeClassNotReady iff status has no entry and the catalogue has no image of the architecture, a plain error iff the catalogue could not be read, and never capacity |
| Selection.ResolvedImageMeaning | pkg/cloudprovider/cloudprovider.go:115-134 | without a status entry: the live image of the architecture, no image, or a retryable failure |
| Selection.GateGuaranteesImage | pkg/cloudprovider/cloudprovider.go:109-151 | with current resolved images and a candidate, Create launches that architecture's status entry whatever the live catalogue says |
| Selection.AdvertiseLaunchAgree | pkg/cloudprovider/cloudprovider.go:366-405 | from one listing Create selects iff GetInstanceTypes advertises a usable offering, at no more than any advertised price |
| Selection.GateKeepsMembership | pkg/cloudprovider/cloudprovider.go:383-405 | the gate changes availability only, and clears it iff the architecture has no image |
| Selection.FailuresHitNewPairs | pkg/cloudprovider/cloudprovider.go:297-302 | among Creates that fit in one TTL each capacity failure hits a catalogue pair not hit before by them, whatever marks, live or expired, the provider held before |
| Selection.CapacityFailuresBounded | pkg/cloudprovider/cloudprovider.go:267-302 | in any run of Creates, from any history of marks, every stretch that fits in one TTL has distinct failing pairs and at most as many failures as there are pairs |
| ConcurrentCreates.ConcurrentFailuresBounded | pkg/cloudprovider/cloudprovider.go:193-302 | with at most K Creates in flight at a time, each looking at the marks offering by offering while others mark, no pair fails more than K times within one TTL, and failures are at most K times the pairs |
| ConcurrentCreates.StepKeepsInv | pkg/cloudprovider/cloudprovider.go:193-302 | every beginning, choice and answer keeps a failed pair's failures plus the calls that can still choose it within K |
| NodeClass.EntryForMeaning | pkg/cloudprovider/cloudprovider.go:110-114 | a status image exists iff an entry has the architecture, and it is one of those entries |
| CloudProvider.CloudProvider.Create | pkg/cloudprovider/cloudprovider.go:154-333 | result, server left at hcloud and pair marked are those of Decide on the listing; a refusal or a failed listing changes neither servers nor marks |
| CloudProvider.ServerMeaning | pkg/cloudprovider/cloudprovider.go:281-332 | a returned claim names a live server of the chosen type, image and location under an ID that parses back; a server left by any other outcome is an ordinary error |
| CloudProvider.OutcomeMeaning | pkg/cloudprovider/cloudprovider.go:154-333 | a claim is returned iff something was chosen, userData resolves, and hcloud accepts and its actions succeed; each error iff its own cause |
| CloudProvider.ReturnedClaim | pkg/cloudprovider/cloudprovider.go:304-330 | the returned claim names in decimal the image hcloud named, else the one it came with; every label it came with survives, and of the type's and offering's labels those it did not bring |
| CloudProvider.LaunchedServer | pkg/providers/instance/instance.go:136-205 | the server left has exactly the chosen type, location and image, the network and firewalls asked for, and labels as stated key by key |
| CloudProvider.CloudProvider.Launch | pkg/cloudprovider/cloudprovider.go:193-333 | Create from its scan on, over the listed objects; the cache stays as it was |
| CloudProvider.CloudProvider.Send | pkg/cloudprovider/cloudprovider.go:267-333 | the server, mark and result are those of launching the chosen pair with the resolved image, and the cache stays as it was |
| CloudProvider.CloudProvider.Choose | pkg/cloudprovider/cloudprovider.go:193-265 | the chosen objects and image are Decide's |
| CloudProvider.SelectOffering | pkg/cloudprovider/cloudprovider.go:180-219 | the scan over objects yields exactly Scan's winner, missing architectures and capacity flag |
| CloudProvider.ResolveImage | pkg/cloudprovider/cloudprovider.go:109-134 | the status entry if any, else the live image unless its architecture differs |
| CloudProvider.Hydrate | pkg/cloudprovider/cloudprovider.go:304-330 | type labels, over them the offering's, over them the claim's own |
| CloudProvider.CloudProvider.GetInstanceTypes | pkg/cloudprovider/cloudprovider.go:366-381 | the listing gated by the node class's images, in fresh objects, and the cache as List leaves it; an error that changes nothing when the node class does not resolve; everything, ungated, without a node pool |
| CloudProvider.MarkImagelessArchesUnavailable | pkg/cloudprovider/cloudprovider.go:395-405 | each offering object is cleared iff it belongs to a shut-out type, and nothing else changes |
| CloudProvider.InPlaceIsGated | pkg/cloudprovider/cloudprovider.go:393-405 | clearing in place equals the gate on values when no two types share an offering object |
| Sessions.Session | pkg/cloudprovider/cloudprovider.go:154-405 | after any mixed sequence of GetInstanceTypes and Create calls for any node classes every answer given out still reads as its own listing gated by its own class, every listing is what a chain of plain cache answers gives, the marks are those of the capacity errors in order, and the cached catalogue is still one hcloud answered with |
| Sessions.SessionFallsBack | pkg/cloudprovider/cloudprovider.go:297-302 | any stretch of such a session that fits in one TTL has at most as many capacity errors as its catalogues have pairs, no pair failing twice |
| Sessions.CreateThenCheck | pkg/cloudprovider/cloudprovider.go:154-514 | on the heap, IsDrifted on the claim Create just returned finds the recorded server by the claim's provider ID and reports no drift iff nothing conflicts |
| Drift.IsDrifted | pkg/cloudprovider/cloudprovider.go:408-514 | the first drift reason in the order image, network, firewall, server type, location, labels; an error when the node class or the server cannot be had; no drift without a server |
| Drift.DriftMeaning | pkg/cloudprovider/cloudprovider.go:432-514 | a reason is reported iff the server differs so and in no earlier way, and none iff image, network, every firewall, type, location and every label match |
| Drift.EditDrifts | pkg/cloudprovider/cloudprovider.go:440-497 | after an edit of the network, the firewalls or the locations alone, an undrifted server drifts for that reason iff it does not meet the edit |
| Drift.CreatedClaimNotDriftedIff | pkg/cloudprovider/cloudprovider.go:281-332 | the claim Create returned is not drifted against the recorded server iff no management label, type label or image ID conflicts |
| Drift.LaunchedClaimNotDriftedIff | pkg/cloudprovider/cloudprovider.go:154-514 | the same for every launch decided from a real listing, with nothing assumed of the choice |
| Drift.NeverDriftedIff | pkg/cloudprovider/cloudprovider.go:281-332 | no launch Create can decide for these requirements and node class, with any image and answer, leaves the fresh claim drifted iff nothing on the claim or the node class conflicts with any type and zone they allow |
| PossibleLaunches.DecidedCanLaunch | pkg/cloudprovider/cloudprovider.go:170-219 | whatever Create decides to launch is a server type and zone that the requirements admit and the node class allows |
| PossibleLaunches.CanLaunchDecided | pkg/cloudprovider/cloudprovider.go:170-265 | and each such type and zone is what Create decides on under some catalogue, with any image |
| Drift.RequestIsHonoured | pkg/providers/instance/instance.go:151-181 | the recorded server has the requested network and every requested firewall |
| Drift.ZoneLabelMatchesIff | pkg/cloudprovider/cloudprovider.go:311-320 | whatever Create decides, the claim's zone label is the launch location iff the claim came without one or every zone its requirements and node class allow is that one |
| Instance.Provider.Create | pkg/providers/instance/instance.go:136-231 | a rejection changes nothing and is classified; an accepted request leaves the described server even when its actions fail |
| Instance.UserLabelsSurviveIff | pkg/providers/instance/instance.go:138-149 | the user's labels reach the server unchanged iff each management key among them has the provider's value |
| Instance.ServerLabelsMeaning | pkg/providers/instance/instance.go:138-149 | the labels a server ends up with, key by key |
| Instance.ClusterPartition | pkg/providers/instance/instance.go:302-315 | after any interleaving of creates, deletes and foreign servers each cluster lists exactly the live servers it created |
| Instance.CapacityIff | pkg/providers/instance/errors.go:17-49 | an error is capacity iff it has one of two codes, or is an invalid input with one of two wordings anywhere in its message, in any case |
| Instance.CapacitySurvivesContext | pkg/providers/instance/errors.go:41-49 | a capacity error stays one when its message changes case or has text put around it |
| Instance.Provider.Get | pkg/providers/instance/instance.go:285-299 | the live server the ID names, none when it is gone, an error for an ID that does not parse or an hcloud that does not answer |
| Basics.SpellingInjective | pkg/apis/v1/labels.go:7-22 | no two label keys of the model have one spelling |
| Instance.CopyInto | pkg/cloudprovider/cloudprovider.go:317-320 | copying one label map over another |
| ProviderID.RoundTrip | pkg/providers/instance/instance.go:318-333 | parse of format is the identity on every int64 and an error beyond |
| ProviderID.ParseNatPositional | pkg/providers/instance/instance.go:318-333 | decimal notation: what precedes n digits counts ten to the n times |
| ProviderID.ParseIntMeaning | pkg/providers/instance/instance.go:318-329 | one optional sign, then digits, within 64 bits |
| ProviderID.Reparse | pkg/providers/instance/instance.go:318-333 | what parses, re-formatted, parses to the same number |
| ProviderID.FormatAfterParseIff | pkg/providers/instance/instance.go:318-333 | a text that parses re-formats to itself iff it has no plus sign, is not "-0" and has no leading zero |
| ProviderID.FormatInjective | pkg/providers/instance/instance.go:331-333 | distinct IDs have distinct texts |

## Left out

- InstanceTypeProvider.Provider.ApplyAvailability: sees one unavailable map throughout a listing; marks landing between two offerings are in `RefreshProtocol.ListingsReflectMarks`.
- InstanceTypeProvider.ToInstanceType: does not model capacity, overhead or the server-family label, which no property here reads.
- Catalogue.HourlyNetPrice: starts after `ParseFloat` and divides reals, so it does not model underflow of a denormal monthly price.
- CloudProvider.CloudProvider.Create: does not model the capacity and allocatable figures of the returned claim.
- CloudProvider.Hydrate: does not model the capacity and allocatable figures, which no property here reads.
- Instance.Provider.Create: does not record SSH keys, public addresses or the placement group on the server, which IsDrifted does not compare.
- NodeClassController.Reconcile: keeps each condition's status, reason and generation but not its message, so a write that only changes a message is not seen.
- ImageFamily.ResolveUbuntu: lower-cases ASCII only.
- ImageFamily.ResolveTalos: lower-cases ASCII only.
- NodeClassRuns.GenerationSafety: does not model deleting and re-creating a node class under the same name, which restarts generations.
- Selection.FailuresHitNewPairs: is about Create calls one after another; calls in flight together are in `ConcurrentCreates.ConcurrentFailuresBounded`.
- Sessions.Session: runs its calls one after another; concurrent listings are in `RefreshProtocol` and concurrent launches in `ConcurrentCreates`.
- Karpenter's requirement algebra, the root Ready condition and condition transition times: library behaviour.
- Firewall, SSH-key, network and Secret existence checks: their outcome is a parameter of a reconcile.
- Placement groups, userData contents, SSH keys, public addresses and server deletion through the provider: no property here depends on them.
- Placement-group names: injective only for a fixed node pool (cluster "a" with pool "b-c" and cluster "a-b" with pool "c" collide).
- HTTP timeouts, configuration, controller wiring, metrics, logs and events: no state of their own.
