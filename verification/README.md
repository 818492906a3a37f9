# A verified model of Sesame's policies, sandbox and scrutinizer, and of avail's finder

Sesame keeps data in *privacy containers*: a value together with a policy that says in which
contexts the value may be released. `avail` is an application of Sesame that finds free time in
several calendars. The model covers four parts of the two.

* **Policies.** A policy is a tree: leaves, and `And`, `Or`, `Option`, `Ref`, `AnyPolicy` and
  `TestPolicy` around them. Its meaning is a predicate on contexts, `Check` (`Policies.dfy`).
  Policies are taken apart into reflection trees and walked by a visitor driver
  (`Reflection.dfy`), rebuilt at a static type (`Specialization.dfy`,
  `SpecializationProofs.dfy`, `Fitting.dfy`, `Lossless.dfy`), joined in place (`Conjunction.dfy`), and folded out of arbitrary
  data (`Folding.dfy`, `LeafFolding.dfy`, `Gathering.dfy`). What an application must promise about
  its simple policies is one law, `Lawful`; `CalendarPolicy.dfy` keeps it for the calendar policy.
* **Availability.** Events are grouped by day (`Grouping.dfy`), a sweep over days and events finds
  the free slots (`Scheduler.dfy`, `SchedulerProofs.dfy`, `SchedulerLimits.dfy`,
  `EventLimits.dfy`, `Answer.dfy`), and the slots are split into windows that are merged again once they are
  picked (`Windows.dfy`, `Booking.dfy`).
  Times are whole minutes in one fixed offset from UTC.
* **Sandbox.** Nested vectors, boxes, strings and tuples are copied into the memory of a sandbox,
  with 32-bit sizes and relative pointers, and taken out again (`SandboxMemory.dfy`,
  `Sandboxing.dfy`). Memory is a map of allocated blocks. The
  allocator is any function of the requests so far, the blocks and the wanted size that answers with
  an unused address or refuses.
* **Scrutinizer.** A depth-first collector stores what each function calls, and a recursive
  analysis gives a verdict over the stored calls (`CallGraph.dfy`, `Collection.dfy`,
  `Analysis.dfy`). A program is a map from functions to the calls that its bodies make.

Code that updates something in place is modelled by methods: leaf policies live in cells on the
heap, the table of days, the sandbox, the function storage, the virtual stack, the collector and
the analyzer are classes. Each such method is proved against a function or a predicate on values,
and the lemmas are about those.

## Where the code keeps less than it promises

* The slot of a day without events, before a day with events, begins at the hour of `min` and the
  minute of `max` (finder.rs:120), up to an hour before or after `min`. A day after the last day
  with events is offered from the next half hour after `min` on, but the time from there to `max`
  is counted from `min`, so that the slot ends before `max` (finder.rs:193-194).
  `SchedulerLimits.SoundExactly` and `SchedulerLimits.CompleteExactly` say exactly for which
  searches the answer is sound, and complete, for all events, whatever the minutes are;
  `SchedulerLimits.HalfHoursComplete` is the second for bounds on half hours.
* The first of these slots is offered without a look at `start` and `duration`, and a first day
  with events is looked at from `min` on (finder.rs:112-125 and 142-184).
  `SchedulerLimits.LengthKeptExactly` and `SchedulerLimits.StartKeptExactly` give the exact
  conditions on a search under which every slot has the wanted length, and none begins before the
  start, whatever the events are.
* The end is compared only with the time where the sweep stands (finder.rs:108), so days with
  events, and free days before them, are offered after the end of the search.
  `SchedulerLimits.EndKeptExactly`: for some events every search that finds anything at all does so.
* A start after 23:30 is rounded up to midnight, before `min`; `SchedulerLimits.SoundExactly`
  covers this too.
* Only times of day of events are compared (finder.rs:149-168). `EventLimits.OneEventExactly`: an
  event is dealt with by every search exactly when it ends on the day on which it starts. And the
  rounding can cross midnight; `EventLimits.LateGapsExactly`: events of one day each are dealt with
  by every search exactly when none of them starts after a gap that begins after 23:30.
* An event of a permitted day before the first day of the search uses up the first day, and the
  events of that day then use up the second (finder.rs:108-189). `EventLimits.EarlyEventsExactly`
  says exactly when all answers stay sound all the same, and `EventLimits.EarlyTimeExactly` exactly
  when none of them loses free time. An answer may stay sound and lose a whole free day
  (`EventLimits.EarlyEventLosesDay`). It also lets weekends in, because the day where the sweep
  stands is then used without a look at its date (`Answer.EarlyEventOffersWeekend`);
  `Answer.EarlyWeekendsExactly` says for which searches.
* Specializing an alternative may pick one side of it, and then the policy becomes strictly
  stricter (`SpecializationProofs.AlternativeMayBeLost`); `Lossless.LosslessExactly` says exactly
  at which target types this cannot happen. A side that was picked in an attempt that failed later
  stays picked: what a failure hands back may lack an alternative (`Fitting.FailureLosesSide`), and
  a policy may be refused although it fits (`Fitting.PickedTooEarly`, `Fitting.DroppedTooLate`).
* Encoding a container whose policy is already type-erased does not wrap it once more, so decoding
  it fails: `Folding.Decode` is a round trip exactly for the other values.
* Merging windows that are not in order leaves overlapping ones apart
  (`Windows.UnsortedNotCanonical`). The application merges them in the order in which they were
  offered, and then the result is canonical (`Booking.BookingIsCanonical`).

## Model

| member | source | states |
|---|---|---|
| `Reflection.CheckerComputesCheck` | Sesame/core/src/policy/reflection/visitor/visitors.rs:94-142 | The visitor driver with the check visitor never stops early and computes the structural check of the tree |
| `Reflection.FinderComputesNoPolicy` | Sesame/core/src/policy/reflection/visitor/visitors.rs:144-182 | The driver with the no-policy visitor, which visits pointees of references again, computes the structural no-policy verdict |
| `Reflection.NormalizePreserves` | Sesame/core/src/policy/reflection/visitor/visitor.rs:243-312 | The driver with the normalizer strips every wrapper outside references, leaves a wrapper-free tree alone, and keeps the check in every context and the no-policy verdict |
| `Reflection.NormalizeIdempotent` | Sesame/core/src/policy/reflection/enum.rs:37-41 | Normalizing twice is normalizing once |
| `Reflection.ReflectPreserves` | Sesame/core/src/policy/reflection/traits.rs:71-273 | Reflection gives a well-formed tree with the policy's check, so a reference and its pointee agree |
| `Reflection.NoPolicyPermitsAll` | Sesame/core/src/policy/reflection/enum.rs:31-35 | A positive no-policy verdict forces the check to be true in every context |
| `Reflection.NoPolicyExactly` | Sesame/core/src/policy/reflection/enum.rs:31-35 | A policy is found to be a no-policy if and only if it lets data go in every context, whatever the application's leaves check |
| `Reflection.StopsAtFirst` | Sesame/core/src/policy/reflection/visitor/visitor.rs:243-312 | A visitor that stops at wanted policies is stopped at the first one from left to right, options and wrappers included, and at none if there is none |
| `Specialization.Erase` | Sesame/core/src/policy/specialization/traits.rs:48 | Reflecting and normalizing a policy gives a tree that can be specialized, with just the policy's And/Or nodes |
| `Specialization.SpecializeLeaf` | Sesame/core/src/policy/specialization/specialization.rs:10-32 | A leaf comes out at the wanted type, or is handed back as it was; `Fitting.LeafFits` says when and as what |
| `Specialization.SpecializeAnd` | Sesame/core/src/policy/specialization/specialization.rs:35-55 | Success has the wanted type; failure hands back trees rebuilt from the halves that succeeded, without more nodes |
| `Specialization.SpecializeOr` | Sesame/core/src/policy/specialization/specialization.rs:56-76 | The same for alternatives |
| `Specialization.SpecializeOption` | Sesame/core/src/policy/specialization/specialization.rs:78-101 | The same for options; a tree handed back keeps its stack of options |
| `Specialization.Specialize` | Sesame/core/src/policy/specialization/enum.rs:29-119 | Specialization terminates, although a failed attempt can hand back a larger tree: And/Or nodes, option stack and target type decrease in this order; a success has the wanted type and is well-typed; the `Fitting` laws below say what fits |
| `SpecializationProofs.SpecializationNeverWeakens` | Sesame/core/src/policy/specialization/enum.rs:29-119 | For every normalized tree and target, the policy of a success and the tree of a failure both have a check that implies the input's check; the checks are equal when the input has no Or |
| `SpecializationProofs.SpecializeToAny` | Sesame/core/src/policy/specialization/specialization.rs:104-145 | Specializing to the type-erased policy always succeeds, with exactly the input's check, alternatives included |
| `SpecializationProofs.AlternativeMayBeLost` | Sesame/core/src/policy/specialization/enum.rs:65-89 | An input with an alternative whose specialization is strictly stricter |
| `SpecializationProofs.WrappersErased` | Sesame/core/src/policy/reflection/traits.rs:194-273 | Type-erasing wrappers anywhere in a policy do not change its normalized reflection |
| `SpecializationProofs.Recovers` | Sesame/core/src/policy/specialization/traits.rs:44-50 | Specializing the erased policy to its own type returns the policy, if the type mentions no AnyPolicy |
| `SpecializationProofs.EraseAndRecover` | Sesame/core/src/policy/specialization/traits.rs:42-51 | The same from under wrappers that were inserted at any positions |
| `Fitting.LeafFits` | Sesame/core/src/policy/specialization/specialization.rs:10-32 | A leaf or a reference fits a type if and only if it is of that type, or the type is an option of its own type, or it is a no-policy and the type is any option, or the type is AnyPolicy, or it fits under the test wrapper of the type; it comes out dressed just so, and is else handed back |
| `Fitting.OptionalLeaf` | Sesame/core/src/policy/specialization/specialization.rs:80-94 | At the option of its type a leaf becomes a present option, and a no-policy becomes an empty option of every type |
| `Fitting.BothFit` | Sesame/core/src/policy/specialization/specialization.rs:35-76 | If both sides fit, the pair fits, side by side, as a conjunction and as an alternative |
| `Fitting.SwappedFit` | Sesame/core/src/policy/specialization/enum.rs:48-89 | If both sides fit only in the other order, and the straight attempt leaves them as they are, the pair comes out swapped |
| `Fitting.LeavesSwapped` | Sesame/core/src/policy/specialization/enum.rs:48-89 | Leaves of different types fit in the other order, as a conjunction and as an alternative |
| `Fitting.NoPolicyDropped` | Sesame/core/src/policy/specialization/enum.rs:54-62 | Beside a no-policy, on either side, the other policy alone decides, at every type that is no conjunction, alternative or wrapper |
| `Fitting.ConjunctionRefused` | Sesame/core/src/policy/specialization/enum.rs:48-63 | Every other conjunction is refused at such a type, and handed back as it was |
| `Fitting.FirstSideThatFits` | Sesame/core/src/policy/specialization/enum.rs:65-89 | Of an alternative, the left side if it fits, else the right one, else both failures |
| `Fitting.FailureLosesSide` | Sesame/core/src/policy/specialization/specialization.rs:35-55 | A conjunction that is refused because of its right side hands back its left side, an alternative, without the alternative |
| `Fitting.PickedTooEarly` | Sesame/core/src/policy/specialization/enum.rs:65-89 | An alternative of which one side fits as a whole is refused, because a part of that side was picked in an attempt that failed |
| `Fitting.DroppedTooLate` | Sesame/core/src/policy/specialization/enum.rs:48-63 | A conjunction fits beside a no-policy; an alternative of it and a leaf is refused there, because the leaf was picked before the no-policy is dropped |
| `Fitting.OptionFits` | Sesame/core/src/policy/specialization/specialization.rs:78-101 | A present option fits an option of whatever its content fits, and at other types its content decides |
| `Fitting.EmptyOptionFits` | Sesame/core/src/policy/specialization/specialization.rs:78-101 | An empty option is an empty option of every type, a no-policy, and nothing else |
| `Fitting.ErasedAsItIs` | Sesame/core/src/policy/specialization/specialization.rs:104-145 | The type-erased policy reflects into the tree it was made of, side by side, but for the options |
| `Lossless.TestTransparent` | Sesame/core/src/policy/specialization/specialization.rs:148-169 | A test wrapper in the target changes nothing but the type of a success, at any target and for any tree |
| `Lossless.LosslessTargets` | Sesame/core/src/policy/specialization/specialization.rs:104-169 | At AnyPolicy, at test wrappers around it, and at types whose values all permit everything, a success has exactly the input's check, alternatives included; at the first two it always succeeds |
| `Lossless.Keeps` | Sesame/core/src/policy/specialization/enum.rs:29-119 | At alternatives of AnyPolicy that are nested on one side only, and for the trees that policies reflect into and whatever is handed back of these, success and failure both keep exactly the input's check, and a tree that does not permit everything is taken exactly if its alternatives are nested at least as deeply |
| `Lossless.SomethingLost` | Sesame/core/src/policy/specialization/enum.rs:65-89 | For every other target there is a policy that lets data go and is specialized to one that does not |
| `Lossless.LosslessExactly` | Sesame/core/src/policy/specialization/enum.rs:29-119 | A target type keeps the check of every policy that fits it if and only if it is AnyPolicy, possibly under test wrappers, or such alternatives of it, or its values permit everything |
| `Conjunction.JoinedChecksBoth` | Sesame/core/src/policy/conjunction/impls.rs:8-106 | The policy after a join lets data go exactly where both did, provided that simple joins do |
| `Conjunction.JoinIsConjunction` | Sesame/core/src/policy/conjunction/join.rs:49-65 | Joining one way, the other way or stacking: the check is the conjunction, for all policies and contexts |
| `Conjunction.LeafAbsorbs` | Sesame/core/src/policy/conjunction/impls.rs:34-86 | A no-policy joins exactly what lets everything go; a simple leaf exactly a leaf of its type, or NoPolicy, under any wrappers; custom leaves, alternatives, options and references nothing |
| `Conjunction.Owned.ReflectedShows` | Sesame/core/src/policy/reflection/traits.rs:83-89 | The mutable reflection refers to the policy's own leaves and shows its normalized reflection |
| `Conjunction.JoinViaReflection` | Sesame/core/src/policy/conjunction/impls.rs:8-106 | In place: the answer is the one can_join_with announced, so the two panics are unreachable; success leaves the joined policy, refusal leaves both unchanged |
| `Conjunction.JoinDyn` | Sesame/core/src/policy/conjunction/join.rs:23-42 | The join in place returns a type-erased policy over the arguments' own leaves, with the value whose check is the conjunction |
| `Conjunction.ReflexiveJoin` | Sesame/core/src/policy/conjunction/traits.rs:5-29 | The statically typed join, in place, component by component |
| `Conjunction.ReflexiveAgrees` | Sesame/core/src/policy/conjunction/traits.rs:9-29 | For types of simple leaves, NoPolicy, And and TestPolicy, joining through reflection is never refused and does what the typed join does |
| `Folding.ToEnumRepresents` | Sesame/core/src/sesame_type/impls.rs:64-341 | Encoding keeps the policies' conjunction, and commutes with replacing containers by their content |
| `Folding.ComposeIsConjunction` | Sesame/core/src/sesame_type/helpers.rs:3-14 | Composing two collected policies is conjunction, and yields none only from none; of two failures the first one is kept |
| `Folding.RemovePCon` | Sesame/core/src/sesame_type/enum.rs:17-45 | Taking the containers out cannot fail, in whatever order hash maps are walked; the collected policy is the conjunction of all contained ones, and absent only if there are none |
| `Folding.StripIs` | Sesame/core/src/sesame_type/enum.rs:17-45 | Taking the containers out of a value yields exactly the value of the same shape with the same plain data in which each container is replaced by its data |
| `Folding.RemoveFromVec` | Sesame/core/src/sesame_type/enum.rs:24-33 | The loop over a vector gathers the policies of all elements, in order |
| `Folding.RemoveFromStruct` | Sesame/core/src/sesame_type/enum.rs:34-43 | The loop over a hash map, in any order, gathers the policies of all entries |
| `Folding.Decode` | Sesame/core/src/sesame_type/impls.rs:81-101 | Decoding any enum succeeds exactly if it can be read at the type, with what it reads as; so decoding without containers inverts encoding and yields data of the right type, and decoding with containers inverts encoding exactly when no container held a type-erased policy. It panics at a struct with neither key of a result and at a tuple of another length, and only if it comes to such a place |
| `Folding.DecodeResult` | Sesame/core/src/sesame_type/impls.rs:154-181 | The same for a result: "Ok" is looked for first, and a struct with neither key is a panic |
| `Folding.DecodeAll` | Sesame/core/src/sesame_type/impls.rs:196-219 | Decoding the elements of a vector or tuple in order |
| `Folding.DecodeMap` | Sesame/core/src/sesame_type/impls.rs:242-275 | Decoding the entries of a hash map in any order, each under the key that its name stands for |
| `Folding.Fold` | Sesame/core/src/fold.rs:9-29 | Folding never fails, yields the value with each container replaced by its content, and a policy whose check is the conjunction of all contained ones |
| `Folding.FoldVec` | Sesame/core/src/fold.rs:31-48 | The loop for vectors of containers returns the data and the policy of the generic fold, on the empty vector too |
| `Folding.FoldTuple` | Sesame/core/src/fold.rs:60-72 | The policies of one tuple are joined from left to right |
| `Folding.FoldTuples` | Sesame/core/src/fold.rs:50-84 | The loop for vectors of tuples of containers returns the data and the policy of the generic fold |
| `Folding.OptimizedInputs` | Sesame/core/src/fold.rs:23-29 | What the generic fold sees of these two kinds of vectors |
| `Folding.LoopsAreFolds` | Sesame/core/src/fold.rs:23-84 | For both kinds of vectors, the data and the policy of the generic fold are those that the loops return |
| `LeafFolding.StackAbsorbs` | Sesame/core/src/policy/conjunction/impls.rs:47-86 | A leaf joins a stack of leaves exactly if one of them has its type, and then only that leaf changes |
| `LeafFolding.FoldOfLeaves` | Sesame/core/src/fold.rs:35-47 | Folding leaves yields one leaf per simple type, in order of first occurrence, holding the join from left to right of all leaves of that type; every NoPolicy is absorbed |
| `LeafFolding.FoldVecOfLeaves` | Sesame/core/src/fold.rs:35-47 | The vector fold over containers with leaf policies is that fold |
| `Gathering.JoinIntoFirst` | Sesame/core/src/fold.rs:122-124 | Joining one container's policy into the first one's leaves all other containers alone |
| `Gathering.FromContainers` | Sesame/core/src/fold.rs:113-135 | The conversion panics exactly when a join is refused, and else returns all data in order and the joined policy |
| `Gathering.NeverPanics` | Sesame/core/src/policy/conjunction/traits.rs:5-29 | For those types no join is refused, and the result is the iterated typed join |
| `CalendarPolicy.CalendarLawful` | avail/src/ifc.rs:80-105 | The calendar policy's join and check satisfy the law that every join relies on |
| `CalendarPolicy.JoinedOwners` | avail/src/ifc.rs:102-104 | Joining all batches' policies gives the policy of the union of their owners |
| `CalendarPolicy.CollectBatches` | avail/src/ifc.rs:159-160 | All batches become one container, for the owners of all of them |
| `CalendarPolicy.ConcatInOrder` | avail/src/ifc.rs:164-166 | Every batch is found in the concatenation as a whole, in order, behind the batches before it, and there is nothing else |
| `CalendarPolicy.ConcatMember` | avail/src/ifc.rs:164-166 | The events searched with are exactly the events of all batches |
| `CalendarPolicy.ComputeAvailability` | avail/src/ifc.rs:155-194 | Never blocked and never panics; if the search is well posed for the events of all batches, no slot overlaps an event of any batch, and no wanted time that is free of all of them is lost; the policy is for exactly the owners of all batches |
| `CalendarPolicy.ReleasedToAllOwners` | avail/src/ifc.rs:85-100 | That policy releases exactly on an allowed route to a list that contains every owner of every batch |
| `Grouping.DayTable.InsertEventByStart` | avail/src/datetime/finder.rs:248-260 | The scan and insertion put the event behind those that do not start later, and change no other day |
| `Grouping.DayTable.InsertEventByDate` | avail/src/datetime/finder.rs:227-246 | The event goes into its day, or opens a new day in order |
| `Grouping.GroupEventsByDate` | avail/src/datetime/finder.rs:214-225 | All events are inserted one after the other |
| `Grouping.GroupingIsStable` | avail/src/datetime/finder.rs:214-260 | Day keys increase strictly, groups are non-empty, of one date and in order, and events with one start keep their order |
| `Grouping.GroupingKeepsEvents` | avail/src/datetime/finder.rs:214-225 | The groups hold exactly the events that were given |
| `Grouping.FlattenSorted` | avail/src/datetime/finder.rs:214-260 | The concatenation of the groups is sorted by start |
| `Grouping.StableSortUnique` | avail/src/datetime/finder.rs:248-260 | A stable sort is determined by its input, so the concatenation is the stable sort |
| `Scheduler.FindFreeDays` | avail/src/datetime/finder.rs:112-130 | The loop over the days before the next day with events computes the specified entries and stops where specified |
| `Scheduler.FindBusyDay` | avail/src/datetime/finder.rs:142-184 | The loop over the events of one day, and the slot after the last one, compute the specified slots |
| `Scheduler.FindOpenDays` | avail/src/datetime/finder.rs:191-207 | The loop over the days after the last event computes the specified entries and reaches the end of the search |
| `Scheduler.GetAvailability` | avail/src/datetime/finder.rs:88-212 | The nested loops terminate, by groups left and time to go, and compute the specified sweep; `Answer.AnswerIs` says day by day what that is |
| `SchedulerProofs.RoundingIsTight` | avail/src/datetime/finder.rs:267-300 | No half hour lies strictly between a time and its rounding up or down |
| `SchedulerProofs.BusyDaySound` | avail/src/datetime/finder.rs:145-184 | Without a late gap, the slots of a day with events are inside the bounds, in order, apart, and overlap no event |
| `SchedulerProofs.FinderSound` | avail/src/datetime/finder.rs:88-212 | For sound bounds and events: no slot overlaps any event, each lies inside the bounds of a permitted day, slots are in order and apart, and day keys increase strictly |
| `SchedulerProofs.FinderComplete` | avail/src/datetime/finder.rs:88-212 | Every aligned interval of at least the wanted length that begins in the searched time, inside the bounds of a permitted day, and overlaps no event, lies inside a slot, unless it begins before the slot of a day without events or ends after the slot of a later day after the last event |
| `SchedulerProofs.HalfHoursNotCut` | avail/src/datetime/finder.rs:119-122 | With bounds on half hours, that can only happen to an interval that begins right at min, and only if the slots of days without events begin after min |
| `SchedulerProofs.FreeStartIs` | avail/src/datetime/finder.rs:119-122 | The bounds are sound exactly if the slot of a day without events lies between them, and then min is before 23:00 |
| `SchedulerLimits.FreeDaysAre` | avail/src/datetime/finder.rs:112-130 | The days without events before a day with events are offered as a whole, exactly the permitted ones that the sweep reaches before max |
| `SchedulerLimits.LengthKeptExactly` | avail/src/datetime/finder.rs:112-125 | All slots have the wanted length for all events if and only if it fits into the slot of a day without events, or nothing is searched |
| `SchedulerLimits.StartKeptExactly` | avail/src/datetime/finder.rs:104-143 | No slot begins before the start for all events if and only if the first day is not permitted, or neither its slot as a day without events nor the longest slot that a day with events can offer from min on would begin earlier, or nothing is searched |
| `SchedulerLimits.EndKeptExactly` | avail/src/datetime/finder.rs:108-130 | No slot begins at the end or later for all events if and only if nothing is searched |
| `SchedulerLimits.SoundExactly` | avail/src/datetime/finder.rs:88-212 | The answer is sound for all events if and only if the slot of a day without events lies between the bounds and a start rounded up to midnight offers no slot there, or nothing is searched |
| `SchedulerLimits.CompleteExactly` | avail/src/datetime/finder.rs:88-212 | The answer is complete for all events if and only if the first day that can be wanted does not open before its slot as a day without events, and later days, if one of them is searched and the wanted length fits, neither open before that slot nor close after the slot of a day after the last event |
| `SchedulerLimits.HalfHoursComplete` | avail/src/datetime/finder.rs:88-212 | With bounds on half hours, that is so if and only if the slot of a day without events does not begin after min, or the wanted length does not fit between the bounds, or no opening of a permitted day is searched |
| `EventLimits.OneEventExactly` | avail/src/datetime/finder.rs:142-184 | The answer for one event is sound for all searches if and only if it ends on the day on which it starts |
| `EventLimits.MidnightEndOverlaps` | avail/src/datetime/finder.rs:168-171 | There is a search whose answer is wrong for an event that ends at midnight |
| `EventLimits.LateSlot` | avail/src/datetime/finder.rs:149-165 | A gap that begins after 23:30 is offered as a slot that ends before it begins, if the wanted length fits between midnight and the next event, or max |
| `EventLimits.LateGapsExactly` | avail/src/datetime/finder.rs:142-184 | For events of one day each, the answer is sound for all searches if and only if no event starts after a gap that begins after 23:30 |
| `EventLimits.LateGapInverted` | avail/src/datetime/finder.rs:149-165 | There is a search whose answer is wrong for an event at 23:40 after one that ends at 23:35 |
| `EventLimits.EarlyTakesDay` | avail/src/datetime/finder.rs:108-189 | An early event of a permitted day takes the place of the events of the day where the sweep stands |
| `EventLimits.EarlyEventsExactly` | avail/src/datetime/finder.rs:108-189 | An event dated before the first day leaves all answers sound if and only if its day is not permitted, or the search ends with the permitted first day and the event leaves no time on it |
| `EventLimits.EarlyEventBreaks` | avail/src/datetime/finder.rs:108-189 | A search and an early event for which some events that the finder could otherwise deal with get a wrong answer |
| `EventLimits.EarlyTimeExactly` | avail/src/datetime/finder.rs:108-189 | In a search that is complete otherwise, an event dated before the first day leaves all answers complete if and only if its day is not permitted; or nothing can be wanted on the first day before the time of day at which the event ends, and, if the first day is permitted, nothing can be wanted on the second day |
| `EventLimits.EarlyEventLosesDay` | avail/src/datetime/finder.rs:108-189 | A search and an early event with which all answers are sound, and the free first day is lost |
| `EventLimits.FridayLosesNothing` | avail/src/datetime/finder.rs:108-189 | An event of a permitted day before a search that begins on a Sunday without weekends loses nothing, although Monday is searched |
| `Answer.AnswerIs` | avail/src/datetime/finder.rs:88-212 | An entry is in the answer if and only if its day is no Saturday or Sunday, or weekends are wanted, the sweep reaches it, and its slots are those between its events in their order, or one whole slot before a later day with events, or the open slot of a day before the end |
| `Answer.AnswerInOrder` | avail/src/datetime/finder.rs:88-212 | The entries are in the order of their days, one for each day |
| `Answer.NoWeekends` | avail/src/datetime/finder.rs:16-18 | Without weekends no entry is dated on a Saturday or Sunday, counted from 1 January 1970, a Thursday |
| `Answer.WorkdaysCovered` | avail/src/datetime/finder.rs:88-212 | Every wanted interval on any other day is covered |
| `Answer.EarlyWeekendsExactly` | avail/src/datetime/finder.rs:108-189 | With an event of a workday before the first day, no answer has a weekend in it if and only if the sweep stands on none before the end |
| `Answer.EarlyEventOffersWeekend` | avail/src/datetime/finder.rs:108-189 | A search of a Saturday without weekends that finds nothing, and with an event on the Friday before answers with the Saturday |
| `Windows.MergeOverlappingAvails` | avail/src/datetime/availability.rs:62-81 | The loop computes the specified merge |
| `Windows.SplitAvailability` | avail/src/datetime/availability.rs:83-104 | The loops terminate for a positive duration and compute the specified windows |
| `Windows.MergePreservesMinutes` | avail/src/datetime/availability.rs:52-81 | Merging neither loses nor adds a minute, in whatever order the slots come |
| `Windows.MergeCanonical` | avail/src/datetime/availability.rs:62-81 | Slots sorted by start merge into separated slots |
| `Windows.MergeIdempotent` | avail/src/datetime/availability.rs:62-81 | Separated slots merge into themselves |
| `Windows.CanonicalUnique` | avail/src/datetime/availability.rs:62-81 | Separated non-empty slots are determined by the minutes they cover |
| `Windows.UnsortedNotCanonical` | avail/src/datetime/availability.rs:68-75 | Out of order, overlapping slots can stay unmerged |
| `Windows.SplitWithin` | avail/src/datetime/availability.rs:92-101 | Each window has the wanted length and lies inside a slot |
| `Windows.PicksStayInside` | avail/src/commands.rs:497-530 | Whatever windows are picked, in any order, each merged one lies inside one offered slot if the slots are separated |
| `Windows.MergeOfSplit` | avail/src/datetime/availability.rs:62-104 | Merging all windows gives each slot cut to a whole number of durations |
| `Booking.AllSlotsSeparated` | avail/src/ifc.rs:168-172 | The slots of all days in one list are separated |
| `Booking.SlotsOfAll` | avail/src/ifc.rs:168-172 | A slot is in the list exactly if some day of the answer has it |
| `Booking.BookingIsFree` | avail/src/commands.rs:497-530 | Whatever slots are selected and windows picked, every merged window overlaps no event, lies inside the bounds of one day, and without weekends not on a Saturday or Sunday |
| `Booking.BookingIsCanonical` | avail/src/commands.rs:497-530 | What is picked in the order in which it is offered is merged into separated windows that cover exactly the picked minutes |
| `SandboxMemory.PointerRoundTrip` | Sesame/sandbox/src/pointers.rs:4-51 | Unswizzling and swizzling returns an address exactly if it points into the sandbox |
| `SandboxMemory.FitsInLowBits` | Sesame/sandbox/src/fast_transfer/primitives.rs:50-72 | A size or an offset may go in exactly if its low 32 bits, read back, are the number |
| `SandboxMemory.OneValue` | Sesame/sandbox/src/fast_transfer/mod.rs:26-31 | A stack part in one memory stands for at most one value of its type, and owns exactly one set of blocks |
| `SandboxMemory.CopyIsConversion` | Sesame/sandbox/src/fast_transfer/primitives.rs:12-33 | For plainly copied types the converted form is the copied bits and owns no memory |
| `SandboxMemory.CopiesAreConversions` | Sesame/sandbox/src/fast_transfer/vec.rs:86-117 | A block copy of such elements writes what converting them one by one writes |
| `SandboxMemory.CopyRoundTrip` | Sesame/sandbox/src/fast_transfer/vec.rs:119-138 | Copied bits read back as the same value |
| `Sandboxing.Sandbox.Allocate` | Sesame/sandbox/src/instance.rs:32-47 | A new block at the unused address that the allocator chose, or none exactly if it refused; no other block changes |
| `Sandboxing.Sandbox.Free` | Sesame/sandbox/src/instance.rs:49-54 | Removes one block that must be allocated |
| `Sandboxing.Sandbox.IntoSandbox` | Sesame/sandbox/src/fast_transfer/mod.rs:19-24 | Success adds exactly the blocks that represent the value and touches no other; memory runs out exactly if the allocator refused a request, and else the copy succeeds exactly if all sizes fit 32 bits |
| `Sandboxing.Sandbox.BoxIntoSandbox` | Sesame/sandbox/src/fast_transfer/box.rs:26-39 | The same for a box: one block around what the content owns |
| `Sandboxing.Sandbox.CopyIntoSandbox` | Sesame/sandbox/src/fast_transfer/string.rs:20-24 | Plain bits go into one block of just their length, or none if there are none |
| `Sandboxing.Sandbox.CopyVecIntoSandbox` | Sesame/sandbox/src/fast_transfer/vec.rs:90-117 | The block copy meets the contract of the conversion element by element |
| `Sandboxing.Sandbox.VecIntoSandbox` | Sesame/sandbox/src/fast_transfer/vec.rs:39-65 | Allocates first, converts the elements into the block one by one, then narrows length and capacity |
| `Sandboxing.Sandbox.TupleIntoSandbox` | Sesame/sandbox/src/fast_transfer/tuples.rs:14-16 | The parts in order, each with memory of its own |
| `Sandboxing.Sandbox.OutOfSandbox` | Sesame/sandbox/src/fast_transfer/mod.rs:26-31 | Returns the represented value and frees exactly the blocks it owns, each once; also for spare capacity that the sandboxed code left |
| `Sandboxing.Sandbox.VecOutOfSandbox` | Sesame/sandbox/src/fast_transfer/vec.rs:68-83 | The same for a vector: the elements first, then its block |
| `Sandboxing.Sandbox.CopyVecOutOfSandbox` | Sesame/sandbox/src/fast_transfer/vec.rs:120-138 | The block copy back meets the same contract |
| `Sandboxing.Sandbox.AllOutOfSandbox` | Sesame/sandbox/src/fast_transfer/tuples.rs:19-21 | The parts in order, each freeing what it owns |
| `Sandboxing.Sandbox.IntoPointer` | Sesame/sandbox/src/sandboxable.rs:129-135 | The copy in a block of its own, whose address is returned |
| `Sandboxing.Sandbox.OutOfPointer` | Sesame/sandbox/src/sandboxable.rs:138-145 | The value from such a block, and nothing of it left |
| `Sandboxing.Sandbox.RoundTrip` | Sesame/sandbox/src/sandboxable.rs:127-145 | In and out again: an equal value, and the sandbox memory as it was; unless the allocator refused, this succeeds exactly if all sizes fit 32 bits |
| `Collection.FunctionInfoStorage.Insert` | scrutinizer/scrutils/src/common/storage/function.rs:24-28 | Appends an entry unless an equal one is stored |
| `Collection.FunctionInfoStorage.GetWithBody` | scrutinizer/scrutils/src/common/storage/function.rs:30-41 | The first entry with a body for the function, if there is one |
| `Collection.FunctionInfoStorage.GetWithoutBody` | scrutinizer/scrutils/src/common/storage/function.rs:43-51 | The first entry without a body for the function, if there is one |
| `Collection.FunctionInfoStorage.GetByCall` | scrutinizer/scrutils/src/common/storage/function.rs:53-60 | The first entry that matches a call |
| `Collection.VirtualStack.Push` | scrutinizer/scrutils/src/collector/structs/virtual_stack.rs:15-17 | Appends one item |
| `Collection.Collector.Run` | scrutinizer/scrutils/src/collector/collector.rs:87-131 | Terminates for recursive programs; a memo hit changes nothing; otherwise the storage grows, stays ordered, without duplicates and closed up to the functions on the stack, all that is new is reached from the returned calls, and these are all calls that are followed, but for those to functions on the stack |
| `Collection.Collector.ProcessCall` | scrutinizer/scrutils/src/collector/collector.rs:152-270 | One call, skipped, resolved or entered, keeps all of this; unless it is skipped, it is recorded, or its target is on the stack |
| `Collection.Collect` | scrutinizer/scrutils/src/collector/collector.rs:47-85 | Finished storage: ordered, closed, the origin last, and every entry reached from it |
| `Collection.StoredIsReachable` | scrutinizer/scrutils/src/collector/collector.rs:189-249 | The stored functions are exactly those reachable in the full call graph, calls that were skipped included |
| `CallGraph.ReachableIsLeast` | scrutinizer/scrutils/src/collector/collector.rs:152-270 | What is reachable is the least set with the origin that is closed under the calls of bodies, in a shallow collection only those to local functions |
| `Analysis.VerdictIsExact` | scrutinizer/scrutils/src/analyzer/analyzer.rs:79-141 | The recursive verdict is positive exactly when every reachable function has a body and none of the local flags |
| `Analysis.PassesExactly` | scrutinizer/scrutils/src/analyzer/analyzer.rs:79-141 | The verdict on any stored function is positive exactly when everything it leads to has a body and none of the flags |
| `Analysis.Analyzer.AnalyzeItem` | scrutinizer/scrutils/src/analyzer/analyzer.rs:18-143 | The recursion ends because calls lead to earlier entries, lookups never fail, the result is the recursive verdict, everything the item leads to is listed as its own verdict says, without stopping at a failure, the item last, and the lists hold nothing with another verdict |
| `Analysis.Analyzer.Run` | scrutinizer/scrutils/src/analyzer/analyzer.rs:145-195 | The origin is found; the verdict is positive exactly when nothing reachable is bodyless or flagged, and exactly when nothing was listed as failing; the lists hold exactly the reachable functions, each in the list that its own verdict asks for |
| `Analysis.CheckPurity` | scrutinizer/scrutils/src/collector/collector.rs:47-131 | Collecting and analyzing any program, recursive or not, decides exactly whether every reachable function has a body without unhandled calls, raw dereferences and transmutes |

## Left out

- `SpecializationProofs.SpecializationNeverWeakens`: for a tree with alternatives it states the implication only, because picking a side loses the equality; `Lossless.LosslessExactly` says at which targets it holds.
- `SchedulerProofs.FinderSound`: for lists of events of several days each, it asks that they touch no permitted day; the exact condition is stated for one event.
- `SchedulerProofs.FinderComplete`: asks that no event of a permitted day is dated before the first day; what such an event loses is stated for one event, by `EventLimits.EarlyTimeExactly`.
- `Answer.AnswerIs`: asks that no event of a permitted day is dated before the first day, as `Answer.NoWeekends` does; what one such event does is stated by `Answer.EarlyWeekendsExactly` and in `EventLimits`.
- `EventLimits.EarlyEventsExactly`: for searches of several days it asks that the wanted length fits between `min` and 23:30.
- `EventLimits.EarlyTimeExactly`: asks for a search that loses nothing without early events (`SchedulerLimits.CompleteExactly`).
- `Conjunction.JoinViaReflection`: policies with a `Join` implementation of their own, and simple joins that panic, are not modelled; leaves are simple, custom (never joined) or NoPolicy.
- `Folding.Fold`: joins policies as values, not in memory; the in-place join of the same values is `Conjunction.JoinDyn`. Derived struct types are represented by tuples and maps.
- `Folding.Fold`: assumes that the key types of hash maps survive `to_string` and `from_str`.
- `Sandboxing.Sandbox.IntoSandbox`: after a panic it says only that the earlier blocks are unchanged; what unwinding frees of the new ones is not modelled.
- `Collection.Collector.Run`: a function has one argument context, and its dataflow analysis is the list of the calls it comes to, in order and with repetitions; the stored types of places are not modelled.
- `Collection.Collector.ProcessCall`: a call resolves to functions as the program says; argument types, resolution and return places are not modelled.
- `Collection.Collect`: closures and the stored types of places are not modelled.
- `Analysis.Analyzer.AnalyzeItem`: without allowlist, trusted standard library and dependency lists, and with all locals important.
- `Analysis.Analyzer.Run`: the same.
- `Analysis.CheckPurity`: the same, with one argument context for each function.
- The three flavours of AnyPolicy are one, and a reflection is not used as a policy itself.
- Types without size, the bincode path, memory layout and alignment, and the code on the WASM side.
- Bodies, borrow facts, type substitution, and the heuristics that set the three flags of a body.
- Several time zones, daylight saving and seconds; localizing the slots after the search.
- Network, OAuth, the event store, prompts and progress bars, the command line and output formats.
- ObPtr, futures, extensions, unchecked critical regions, signatures, and shared or locked values.
