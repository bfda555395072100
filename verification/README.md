# Booking, board, leave and guest-pass invariants

A Dafny model of the four stateful parts of the business-centre backend, with proofs of what every run of them keeps.

- **Bookings** (`BookingModel`, `Allocator`, `Recurrence`, `Materialisation`, `BookingSteps`, `BookingTable`,
  `BookingRuns`, `BookingMeaning`, `SeriesMeaning`, `BookingTiers`, `LockProtocol`, `LockRefinement`, `BlockRace`,
  `UncheckedEdits`). The tables of resources, bookings,
  blocks, series and cancellation audits; each request and each periodic job as a function of the tables, and beside it
  the class `BookingTable.Tables`, whose methods update the tables in place as the code does and are proved to have
  exactly the effect of that function. Over every run confirmed bookings of a resource stay non-empty, disjoint and
  clear of blocks.
  `LockProtocol` splits the requests into lock, check, write and commit and interleaves them; `LockRefinement` ties
  each of the three kinds of transaction back to its atomic step.
- **Reports** (`FreeInterval`, `Occupancy`). The free-interval filter against the booking checks, the busy-slot listing,
  and the floor occupancy figure, all read from the same tables.
- **Boards** (`Numbering`, `Kanban`, `KanbanMoves`, `KanbanColumns`, `KanbanRuns`, `KanbanMeaning`). Task and column positions, the
  renumbering after a move, WIP limits. Rows that tie on position and creation time may come in any order, so the
  renumbering steps are relations, and `Kanban.KanbanTables` is proved to stay within them.
- **Leave ledger** (`LeaveLedger`, `LeaveRuns`, `LeaveMeaning`; `LeaveReviewers` for who can still review, `LeaveWrites` for writes that
  pass its guards) and **guest passes** (`GuestPasses`, and `GuestPassRaces` for scans that overlap).

The modules named `...Meaning` say when each request is accepted and what it then writes, directly of rows, dates,
minutes, roles and plans. They use none of the functions by which the methods are specified, so those functions are held
to an independent statement.

Times are whole minutes on one line, dates are day ordinals, and the local zone is a fixed offset (`Calendar`). The
clock is a parameter of each step. One id counter serves all tables of a component. The settings have their default
values: an override lead of two hours, five active bookings per user, fifteen minutes to a no-show.
`History.priorityOf` and `History.displacedBy` (bookings), `home` (lock protocol), `logRows` and `sends` (guest passes)
are history variables that the source does not store in that form; no step reads them to decide anything.

Places where the code does not do what its documentation says, or what one would expect; the model follows the code:

- A PATCH of a booking without times checks nothing, and it saves the whole row as it was read. `UncheckedEdits` gives
  the exact condition under which either is harmless, and reachable states in which each makes two bookings overlap.
- A PATCH of a series checks nothing either. Templates that end after they start are a step of `BookingRuns`; with any
  other one the periodic job keeps the allocation exactly when it passes the next date over.
- A block takes no resource lock, and becomes visible only when its request commits. `BlockRace` splits it into the
  selection of the bookings to cancel and the publication, and shows exactly when a confirmed booking stands under it:
  when a row that was not selected stands there at the publication, as after a create that ran in between, or when an
  open transaction of any of the three kinds had written a row that the block meets, or had checked it and was going to
  write it.
- Validating a guest pass reads, decides and saves the whole row without a lock. `GuestPassRaces` shows that overlapping
  scans are as good as atomic ones exactly when no column of the row is written in between. Otherwise two scans may both
  accept a single-use pass, a revocation may be undone, and the resend limiter may be set back.
- The free-interval filter hides some parking spaces that can be booked, and keeps resources for intervals over several
  days that nobody can book.
- The resend limiter is announced as three an hour. While no overlapping scan sets its two columns back, three is right
  for one window; a closed hour may hold five, never six, and five is reached with a shared cache that counts correctly
  as well as without one. With overlapping scans of a multi-use pass, and a cache that does not answer, there is no
  limit (`GuestPassRaces.ScansLiftTheLimit`).
- A new task is said to be put at the end of its column; in every reachable state it is put first.
- A board made from a template has its columns numbered from 0, so it starts out not numbered 1..n.
- Losing a reviewer may leave pending requests that nobody can review. Deactivating or removing a member settles the
  requests assigned to that member and no others: one that is open to every admin of a company whose only other admin
  goes stays pending (`LeaveReviewers.UnassignedRequestIsStranded`). Blocking a user, deleting one's own account, a
  demotion and the deactivation of a company settle nothing, so the requests assigned to the admins concerned stay with
  them however many others there are (`LeaveReviewers.AssignedRequestIsStranded`). Deleting a user releases the assigned
  requests and never cancels them. `LeaveReviewers.LossStrandsExactly` is the condition for all of these steps.
- Editing or cancelling a leave request reads it without a lock. An approval between the reading and the save leaves the
  days charged for a request that is pending or cancelled (`LeaveWrites`).
- Deleting a company deletes its leave requests and leaves the balances as they were.
- A task PATCH that names another board moves the task to that board.

## Model

The rows up to `GuestPasses.FiveSendsInAnHour` are results about whole runs, or relate several functions. The rows from
`BookingTable.Tables.CreateBooking` on say of each method that its loops and writes have exactly the effect of the
specification function that the results are about.

| member | source | states |
|---|---|---|
| Allocator.NoConflictsMeaning | apps/bookings/serializers.py:631-674 | the conflict check passes iff no block overlaps and every other overlapping confirmed booking may be displaced for this user; what it then hands on is exactly those bookings |
| Allocator.CreateMeaning | apps/bookings/serializers.py:747-801 | a create changes nothing, or adds one confirmed booking and cancels exactly the confirmed bookings it overlaps, each of strictly lower priority and starting later than the override lead; every other row and table is as before |
| BookingTiers.TopIsNeverDisplaced | apps/bookings/serializers.py:38-44 | over every run from empty tables the booking of a superadmin or of a user of a premium company is never displaced: neither its row nor the history ever says so |
| BookingTiers.DisplacementInEveryState | apps/bookings/serializers.py:644-660 | in every state after a booking was made, a request over it alone and far enough ahead passes the conflict check iff the requester is a superadmin or of a premium company and the holder is neither, or the requester is of a standard company and the holder is no superadmin and of no standard or premium company |
| BookingMeaning.DisplacementByPlan | apps/bookings/serializers.py:644-660 | the same for any tables right after the booking was made, reachable or not |
| BookingMeaning.CreateIsAccepted | apps/bookings/serializers.py:452-693 | a create goes through iff the interval is ahead and within the advance days, suits the kind, the opening days and hours and the limits of the resource, the user may use it, no block crosses it, every booking that crosses it gives way, no desk of the user does if it is for a desk, and the user has fewer than five bookings to come |
| BookingMeaning.CreatedRow | apps/bookings/serializers.py:747-801 | the row it makes, column by column, with the tier by role and plan |
| BookingMeaning.CreateIsRecorded | apps/bookings/serializers.py:796-801 | the history gets the tier and exactly the bookings that the new one crosses |
| BookingMeaning.ConflictCheckMeaning | apps/bookings/serializers.py:631-674 | for any tables, excluded row and user the check passes iff no block crosses the interval and every booking that does starts more than two hours ahead and is of a lower tier than the user |
| BookingMeaning.PatchMeaning | apps/bookings/views.py:1621-1676 | a change of times goes through iff the new interval suits the resource and nothing else crosses it, whoever asks, and it writes the two times only |
| BookingMeaning.BlockMeaning | apps/bookings/views.py:826-842 | a block is answered Ok iff the resource exists and start < end; then one row is added, and exactly the confirmed bookings of the resource with start < block end and end > block start are cancelled, with that admin and reason and one audit row more each |
| BookingMeaning.UnblockMeaning | apps/bookings/views.py:1320-1326 | only a block of this resource can be removed, and only its row goes |
| BookingMeaning.CancelMeaning | apps/bookings/views.py:1778-1799 | a user may cancel what is not cancelled, has not started and is as far ahead as the resource asks; one row is cancelled and audited |
| BookingMeaning.AdminCancelMeaning | apps/bookings/views.py:1831-1850 | an admin may cancel any booking with a reason |
| BookingMeaning.BulkMeaning | apps/bookings/views.py:1890-1961 | a list of 1 to 50 positive ids is accepted; exactly the listed, visible, uncancelled bookings to come, of anybody for an admin and of the caller otherwise, are cancelled, and the skipped list holds every other mention |
| BookingMeaning.CheckInMeaning | apps/bookings/views.py:2201-2224 | a check-in goes through iff the booking is confirmed, has started and has none yet |
| BookingMeaning.ScanMeaning | apps/bookings/views.py:2255-2299 | a scan is valid iff a capsule booking is confirmed and its closed interval holds the moment; the first one marks the arrival |
| BookingMeaning.NoShowMeaning | apps/bookings/tasks.py:187-209 | exactly the confirmed meeting-room bookings without a check-in that started 15 minutes ago or earlier and have not ended become no-shows |
| BookingMeaning.CompleteMeaning | apps/bookings/tasks.py:105-122 | exactly the confirmed bookings that have ended become completed |
| BookingMeaning.DeactivateMeaning | apps/bookings/views.py:884-891 | exactly the confirmed bookings of the resource that have not ended are cancelled |
| BookingMeaning.CompanyDeactivationMeaning | apps/companies/views.py:627-631 | exactly the confirmed bookings of the company are cancelled |
| BookingModel.PlacingKeepsSound | apps/bookings/serializers.py:631-674 | a non-empty row put into a free and unblocked slot keeps confirmed bookings non-empty, disjoint and clear of blocks (the exact condition for any row is `UncheckedEdits.SaveKeepsAllocated`) |
| BookingSteps.BulkCancelMeaning | apps/bookings/views.py:1904-1961 | cancelled plus skipped is the number of ids, repeats included; each eligible booking is cancelled once with one audit row and every other booking is unchanged |
| BookingSteps.BulkCountsAdd | apps/bookings/views.py:1914-1951 | over any id list the first occurrences of targets and the skipped entries add up to its length |
| Recurrence.FirstMatchingWeekday | apps/bookings/tasks.py:243-246 | the result is the first day on or after the base with the wanted weekday |
| Recurrence.MatchingDatesExact | apps/bookings/tasks.py:275-288 | the dates are exactly the wanted dates of the range, strictly increasing |
| Recurrence.MatchingDatesSplit | apps/bookings/tasks.py:275-288 | the dates of two adjacent ranges together are the dates of the joined range |
| Recurrence.OnePerWeek | apps/bookings/tasks.py:275-288 | a weekly series has exactly one date in every window of seven days |
| Materialisation.MaterialiseGrows | apps/bookings/tasks.py:305-340 | a run only adds rows, each a confirmed occurrence of the series on one of the dates that ends after now; nothing else changes |
| Materialisation.MaterialiseKeepsSound | apps/bookings/tasks.py:305-340 | a run keeps bookings non-empty iff the series ends after it starts or the run adds nothing, and in the first case keeps them disjoint and clear of blocks |
| Materialisation.MaterialiseSplit | apps/bookings/tasks.py:305-340 | running over two lists in turn is running over their concatenation, skipped lists included |
| Materialisation.ExtensionsAreOneRun | apps/bookings/tasks.py:218-240 | any number of extensions after the initial run gives the tables and the skipped dates of one run over the whole extended range |
| BookingRuns.PassesAreOneRun | apps/bookings/tasks.py:218-240 | the same for whole passes of the job that pick up this series only, with the moved end date |
| Materialisation.SecondRunIsIdle | apps/bookings/tasks.py:317-334 | a second run on the same series, range and moment leaves the tables unchanged |
| Materialisation.ExistingOccurrenceStays | apps/bookings/tasks.py:326-334 | an occurrence that has a row, cancelled or not, never gets another one |
| Materialisation.EveryDateAnswered | apps/bookings/tasks.py:307-334 | every date still ahead is skipped or ends with a row, and only such dates are skipped |
| Materialisation.CreatableMeaning | apps/bookings/tasks.py:249-272 | the guard of series creation holds iff the run over the same range skips a date for a conflict or leaves the series a booking that has not ended, that is, iff some date reaches the conflict check |
| SeriesMeaning.AddedRows | apps/bookings/tasks.py:305-340 | every row a run adds is, for some date of the list that is not over, a confirmed booking at exactly the two minutes of the series on that date, with its resource, user, company and link; all else stays |
| SeriesMeaning.TurnMeaning | apps/bookings/tasks.py:307-334 | when the turn of a date comes that is still ahead, it is skipped iff a confirmed booking or a block of the resource meets its two minutes on the tables as they are then; otherwise its row is kept if there is one, added if there is none, and the run fails if there are several |
| SeriesMeaning.SeriesIsAccepted | apps/bookings/serializers.py:973-1044 | a series is accepted iff its times, weekday, end, resource and user suit each other, no active series repeats it, and some wanted date up to the end is not over; the creating run never fails |
| SeriesMeaning.CreatedSeries | apps/bookings/views.py:2578-2619 | the series row runs from today on, or from the first wanted weekday within a week, and its bookings lie on wanted dates from today to the end |
| SeriesMeaning.QueueMeaning | apps/bookings/tasks.py:225-230 | a pass takes exactly the active series whose end date is today or later, each once |
| SeriesMeaning.ExtensionMeaning | apps/bookings/tasks.py:229-240 | an extended series gets bookings on wanted dates of the next day or week only and its end is moved by that; else nothing changes |
| SeriesMeaning.PassMeaning | apps/bookings/tasks.py:218-240 | a pass extends a prefix of the queue, each series once, and stops early only at one whose run fails on what the pass has made so far |
| SeriesMeaning.EditMeaning | apps/bookings/serializers.py:930-952 | a PATCH of a series needs an existing resource and two times of day, and writes the template only |
| SeriesMeaning.DeleteMeaning | apps/bookings/views.py:2626-2634 | with a series go exactly its bookings that start later than now; its others lose the link, and no other row changes |
| SeriesMeaning.DeleteBookingMeaning | apps/bookings/views.py:1576-1583 | deleting a booking takes one row |
| BookingRuns.StepKeepsSound | apps/bookings/serializers.py:631-674 | every request and job, edits of series templates that end after they start included, keeps the invariant of the booking tables and brings no known booking back to confirmed |
| BookingRuns.RunKeepsSound | apps/bookings/serializers.py:631-674 | the same for every run from a sound state |
| BookingRuns.EveryReachableStateIsSound | apps/bookings/serializers.py:631-674 | in every reachable state confirmed bookings of a resource are non-empty, disjoint and clear of blocks, no no-show has a check-in, and every displacement is by a higher priority |
| BookingRuns.DisplacementIsBounded | apps/bookings/serializers.py:38-44 | over every run displacement strictly raises priority, the top priority is never displaced, and a chain has at most two displacements |
| BookingRuns.SelectionsNeverShare | apps/bookings/tasks.py:197-206 | no-show and auto-complete never select the same booking, at one moment or in a row |
| LockProtocol.EveryInterleavingIsConflictFree | apps/bookings/serializers.py:758-801 | under every interleaving of creates, recurring runs and time changes, with cancellations and removals at any point, the resource lock alone keeps committed confirmed bookings disjoint |
| LockProtocol.RunKeeps | apps/bookings/tasks.py:305-334 | the invariant behind it: every open transaction's own view is free of conflicts and its verdict is still right when it writes |
| LockProtocol.UncontendedCreateIsAtomic | apps/bookings/serializers.py:758-801 | a create that meets no other request has exactly the effect of the atomic create step |
| LockRefinement.UncontendedPatchIsAtomic | apps/bookings/views.py:1621-1676 | a time change that meets no other request has exactly the effect of the atomic one |
| LockRefinement.UncontendedRecurringRunIsAtomic | apps/bookings/tasks.py:305-334 | a recurring run that meets no other request leaves exactly the bookings and ids of the atomic run |
| LockRefinement.UncontendedBlockIsAtomic | apps/bookings/views.py:826-842 | a block whose selection and publication meet no other request leaves exactly the tables of the atomic one |
| BlockRace.WaitingBlocksAreRespected | apps/bookings/views.py:1289-1301 | so it would be if block requests waited for the resource lock and held it to their end |
| BlockRace.MissingBlocksAreRespected | apps/bookings/views.py:1289-1301 | if every block, when published, has selected all that stands under it and misses what the open transactions have written or checked, no interleaving leaves a confirmed booking under a block |
| BlockRace.PublishedTable | apps/bookings/views.py:826-842 | at its publication a block stands over a confirmed booking iff one is there that was not selected |
| BlockRace.SelectionStaysSwept | apps/bookings/views.py:829-833 | what was selected stays all there is unless a transaction commits a row under the block before the publication |
| BlockRace.BlockInsideTransaction | apps/bookings/views.py:1289-1301 | for a block published at any point of a create, a time change or a recurring run, with any slots and rows still to come: a booking stands under it, then or after the commit, iff one stood there that was not selected, or it meets a row the transaction had written, or had checked and was going to write |
| BlockRace.KindsStay | apps/bookings/tasks.py:305-334 | every transaction begun by one of the three requests is covered by it in every state of every run |
| BlockRace.RaceIsReachable | apps/bookings/serializers.py:758-768 | such a moment is reached by a plain create request |
| BlockRace.BothMomentsFail | apps/bookings/serializers.py:758-801 | from there a block before the write and a block between write and commit each leave the booking under it |
| BlockRace.CreateBetweenSelectionAndPublication | apps/bookings/views.py:826-842 | a create that runs from lock to commit between the selection and the publication ends under the block, with no transaction open at either moment |
| UncheckedEdits.SaveKeepsAllocated | apps/bookings/serializers.py:631-674 | saving any row over a sound allocation keeps it sound iff the row is not confirmed, or is non-empty, free and unblocked |
| UncheckedEdits.PlainPatchKeepsAllocated | apps/bookings/views.py:1613-1617 | a PATCH without times keeps the allocation sound iff the saved row is not confirmed, or is non-empty, free and unblocked |
| UncheckedEdits.StaleSaveKeepsAllocated | apps/bookings/views.py:1613-1617 | saving a row read before any other requests ran keeps the allocation sound iff it was not confirmed at the reading, or its slot is still free and unblocked |
| UncheckedEdits.StaleSaveRevives | apps/bookings/views.py:1613-1617 | it revives a booking iff the row was confirmed at the reading and is not any more |
| UncheckedEdits.UntouchedSlotStaysSound | apps/bookings/views.py:1613-1617 | while the booking stays confirmed in its slot the save is harmless, whatever else ran |
| UncheckedEdits.StaleSaveCanDoubleBook | apps/bookings/serializers.py:796-801 | read, displaced, saved: in every such run two bookings share the slot |
| UncheckedEdits.DisplacementHappens | apps/bookings/serializers.py:644-660 | such runs exist: on every date, two companies of different plans that ask for the same hour of a meeting room |
| UncheckedEdits.PlainPatchCanDoubleBook | apps/bookings/serializers.py:891-903 | book, cancel, book again: in the state every such run reaches, the cancelled booking can be patched back over the new one |
| UncheckedEdits.GenerateAfterEdit | apps/bookings/serializers.py:930-952 | after any PATCH of a series the periodic job keeps the allocation iff the template ends after it starts, or the one date of the next period is over, taken or booked already |
| UncheckedEdits.TimePatchKeepsAllocated | apps/bookings/views.py:1650-1667 | a time PATCH that also sends status or resource keeps the allocation iff the saved row is not confirmed, stays on its resource, or fits on the new one |
| UncheckedEdits.TimePatchMeaning | apps/bookings/views.py:1650-1667 | such a PATCH is refused exactly as one of the times alone, and otherwise writes all it sends |
| UncheckedEdits.InvertedTemplateIsBooked | apps/bookings/tasks.py:218-240 | a series is created and its template edited to end no later than it starts: in every such run the periodic job confirms an empty or inverted booking |
| FreeInterval.FilterVersusBooking | apps/bookings/filters.py:101-152 | except for whole-day parking, a resource is bookable iff it is kept and the interval lies in one day; whole-day parking is kept iff it is bookable and open on every weekday spanned |
| FreeInterval.KeepsMeaning | apps/bookings/filters.py:101-152 | the filter keeps a resource iff no confirmed booking and no block crosses the interval, the weekday of every day it touches is open and, within one day, both ends are in the opening hours |
| FreeInterval.FreeMeaning | apps/bookings/filters.py:101-124 | its conflict test holds iff nothing crosses the interval |
| FreeInterval.WholeDayParkingMayBeHidden | apps/bookings/serializers.py:505-529 | a free parking space open on the first day only is bookable and hidden |
| Occupancy.ActiveAtOneResource | apps/services/utils.py:31-40 | with closed endpoints a resource has no active booking, or one, or two exactly at a handover |
| Occupancy.BookedNowMeaning | apps/services/utils.py:24-40 | the booked figure is busy resources plus handovers, hence at most twice the total, and at most the total without a handover |
| Occupancy.FiguresMeaning | apps/services/utils.py:24-40 | the total is the number of active resources of the floor, and the booked figure the number of their confirmed bookings whose closed interval holds the moment |
| Calendar.CombineRoundTrip | apps/bookings/tasks.py:291-293 | combining a date and a minute and splitting an instant undo each other |
| Calendar.YearMeaning | apps/hr/views.py:242 | a date is of a year iff it lies from the first day of that year to the day before the first of the next, where the first day counts 365 days for every earlier year and one for every earlier leap year |
| Calendar.WeekdaysCycle | apps/bookings/tasks.py:243-246 | the weekdays follow each other from Monday, day 1, on |
| Calendar.DaysFollow | apps/bookings/tasks.py:291-293 | a minute is one step on the line, a day 24 hours, and local time is five hours ahead |
| Sorting.SortIsOrderedPermutation | apps/crm/views.py:48 | ordering rows gives an ordered permutation of them |
| Numbering.Landing | apps/crm/views.py:42-51 | among rows that occupy 1..n but one gap, where a row asking for a position is numbered, the creation time deciding against the occupant |
| Numbering.DenseOrder | apps/crm/views.py:42-51 | ordering rows that are numbered 1..n finds each at its number |
| KanbanMoves.NormalisedMeaning | apps/crm/views.py:42-51 | from any positions a renumbering numbers the column 1..n in the order it had and changes nothing else |
| KanbanMeaning.NumberingMeaning | apps/crm/views.py:42-51 | a renumbering is possible iff the tasks of the column that are not deleted get distinct numbers from 1 to their count in the order of position and creation time, and nothing else changes |
| KanbanMeaning.CreateMeaning | apps/crm/views.py:793-797 | a task is created iff the column is on the board and has room for one more active task; then it is written at 0 and the column numbered |
| KanbanMeaning.PatchMeaning | apps/crm/serializers.py:313-330 | a PATCH of the column goes through iff that is on the board named, or else on that of the task, and has room if it is another one; it writes the column only |
| KanbanMeaning.MoveMeaning | apps/crm/views.py:999-1039 | which moves go through, and that a table is a result of one iff the task is written at the order asked for, or one behind all others, and then the two columns are numbered |
| KanbanMeaning.ShelvingMeaning | apps/crm/views.py:1183-1189 | what archiving and deleting write before the column is numbered |
| KanbanMeaning.UnarchiveMeaning | apps/crm/views.py:1221-1236 | a task comes back iff it is archived and its column has room |
| KanbanMeaning.RoomMeaning | apps/crm/services.py:7-26 | the limit leaves room iff it is 0 or is not exceeded by the tasks that are neither archived nor deleted, without those left out, and the new ones |
| KanbanMoves.NormalisingTwice | apps/crm/views.py:1037-1039 | renumbering a numbered column changes nothing, so the second renumbering of a move within a column is idle |
| KanbanMoves.MoveKeepsTasks | apps/crm/views.py:999-1039 | from any positions a move keeps all tasks, changes only positions and the moved task's column, keeps the others in order and leaves both columns numbered 1..n |
| KanbanMoves.MoveIntoNumberedColumn | apps/crm/views.py:1018-1039 | into another numbered column of n tasks, order k lands at min(k, n+1) or min(k+1, n+1), as the creation times of it and the occupant decide |
| KanbanMoves.MoveWithinNumberedColumn | apps/crm/views.py:1018-1039 | within a numbered column it lands within one of min(k, n), exactly as decided by the occupant and the gap it left |
| KanbanMoves.MoveToTheEnd | apps/crm/views.py:1022-1031 | without an order it lands last from any positions |
| KanbanMoves.CreatedTaskIsFirst | apps/crm/views.py:793-797 | in a column without a task at position 0, numbered or not, a new task gets number 1, the others keep their order and are renumbered behind it; they move down by exactly one if they were numbered |
| KanbanRuns.RunKeepsPositive | apps/crm/views.py:42-51 | in every state of every run all positions are at least 1 |
| KanbanRuns.EveryCreatedTaskIsFirst | apps/crm/views.py:793-797 | in every run a created task gets number 1 and the others keep their order |
| KanbanColumns.ShiftedMeaning | apps/crm/views.py:455-486 | a shift lands where asked, keeps the siblings' order, keeps numbers distinct and keeps 1..n |
| KanbanColumns.ShiftColumnShifts | apps/crm/views.py:460-486 | the PATCH of a position is such a shift, within the numbers of the board, and leaves other boards alone |
| KanbanColumns.ShiftLands | apps/crm/views.py:460-486 | on a board of n columns a PATCH to wanted >= 1 puts the column at wanted if that is at most n and at n otherwise; to the number it has it changes nothing |
| KanbanColumns.SiblingsMakeRoom | apps/crm/views.py:468-482 | each other column of the board between the old and the new number moves one step towards the old one, and no other row changes |
| KanbanColumns.DeleteClosesTheGap | apps/crm/views.py:528-536 | after a deletion the remaining columns are numbered 1..n in their order |
| KanbanColumns.ReorderMeaning | apps/crm/views.py:582-587 | each column gets the place of its last mention, numbers are distinct, and they are 1..n iff no id is repeated |
| KanbanMeaning.ReorderIsAccepted | apps/crm/views.py:559-587 | a list is accepted iff it mentions exactly the columns of the board, repeats allowed; each gets the place of its last mention and nothing else changes |
| KanbanMeaning.DeleteColumnMeaning | apps/crm/views.py:497-538 | a column may go iff another one of its board has room for its active tasks; the tasks that are not deleted get that column, the deleted ones go, and the other columns close up |
| KanbanMeaning.LimitMeaning | apps/crm/serializers.py:393-401 | a limit is accepted iff it is 0 or at least the number of active tasks |
| KanbanMeaning.AddColumnMeaning | apps/crm/views.py:440-446 | a new column gets the number one behind the greatest of its board, or 1 |
| KanbanMeaning.BoardMeaning | apps/crm/views.py:210-218 | a new board gets as many columns as its template, numbered from 0 and without limits |
| KanbanRuns.DeleteColumnLosesNoTask | apps/crm/views.py:526-529 | every task that is not deleted reaches the target once and unchanged otherwise, and only deleted ones go |
| KanbanRuns.StepKeepsSound | apps/crm/services.py:7-26 | every step keeps every limit, every reference and distinct column numbers |
| KanbanRuns.EveryReachableBoardIsSound | apps/crm/services.py:7-26 | in every reachable state a column with a limit holds at most that many active tasks and no two columns of a board share a number |
| KanbanRuns.NumberingStays | apps/crm/views.py:440-486 | a board numbered 1..n stays so along every run whose reorders repeat no id |
| KanbanRuns.TemplateIsNotNumbered | apps/crm/views.py:217-218 | a board fresh from a template is not numbered 1..n |
| LeaveMeaning.ReviewIsAccepted | apps/hr/views.py:195-250 | a review goes through iff an admin of the company who is not the author and is the reviewer, if one is named, decides and, for an approval, no other approved leave of the author shares a day and the balance of the year in which the leave starts has its days left, if it is charged and not approved yet |
| LeaveMeaning.ReviewMeaning | apps/hr/views.py:252-281 | it writes the row and, for a vacation or day off, exactly the balance of the author for the year whose first day and next first day enclose the start; that is opened with the allowance if need be |
| LeaveMeaning.SubmitMeaning | apps/hr/serializers.py:63-146 | a request is filed iff the reviewer is another active admin of the company, which an admin must name, its days are from today on and free of approved leaves, and the balance of the year in which it starts has them left if it is charged |
| LeaveMeaning.EditMeaning | apps/hr/views.py:127-140 | the author may rewrite a pending request under the same conditions |
| LeaveMeaning.CancelMeaning | apps/hr/views.py:153-164 | the author may cancel a pending request |
| LeaveMeaning.SetBalanceMeaning | apps/hr/views.py:309-326 | a superadmin or a member of the same company may set a total; the used days stay |
| LeaveMeaning.SettlingMeaning | apps/companies/views.py:78-101 | of the requests exactly the pending ones of the company assigned to the one lost change: they are opened if an active admin other than that one and the author is left, and cancelled if not |
| LeaveMeaning.DepartureMeaning | apps/companies/views.py:683-700 | deactivating and removing a member write that row and settle with the same result, before or after it |
| LeaveMeaning.DeletionMeaning | apps/users/views.py:772-778 | exactly the requests and balances of the deleted user go, and the name from other requests |
| LeaveMeaning.MemberWrites | apps/companies/views.py:872-915 | a change of role, of a flag or of the flags of a company writes that column of exactly the members concerned |
| LeaveMeaning.JoinMeaning | apps/users/serializers.py:268-293 | an invitation makes a member of anybody unknown, a guest or inactive, and of nobody else |
| LeaveRuns.ReviewMovesExactly | apps/hr/views.py:272-279 | a successful review moves the counter of the year whose bounds enclose the start by exactly the request's days, so the cut at zero never acts |
| LeaveRuns.RunKeeps | apps/hr/views.py:195-281 | every run keeps approved leaves disjoint and every counter equal to the sum of approved charged days |
| LeaveRuns.SumIsDistinctDates | apps/hr/models.py:52-54 | the days of disjoint leaves add up to the number of distinct calendar days they cover |
| LeaveRuns.UsedDaysMeaning | apps/hr/views.py:195-281 | in every reachable ledger the used days of a year are the days of the approved vacations and days off that start within its bounds, and the number of distinct days they cover |
| LeaveRuns.OnlyLoweringExceeds | apps/hr/views.py:309-326 | only setting a total below what is used makes the used days exceed it |
| LeaveRuns.UsedStaysWithinTotal | apps/hr/views.py:241-250 | in a run that never does so the used days stay within the total |
| LeaveReviewers.ReviewableMeaning | apps/hr/views.py:206-226 | a request is reviewable iff the review of some active user goes through |
| LeaveReviewers.FiledIsReviewable | apps/hr/serializers.py:63-146 | a filed request is reviewable iff it names a reviewer or the company has another active admin |
| LeaveReviewers.LossDecidesEveryRequest | apps/companies/views.py:78-101 | after a deactivation, removal, demotion, block, account or user deletion, or company deactivation every pending request stays reviewable iff another active admin may act on it; of the rest, those the step settles are cancelled and all others are stranded |
| LeaveReviewers.LossStrandsExactly | apps/users/views.py:772-798 | a reviewable request is stranded iff it waited for nobody in particular, or its reviewer was deleted, and only those lost could act, or it waits for one of those lost and the step settles nothing |
| LeaveReviewers.UnassignedRequestIsStranded | apps/companies/views.py:88-90 | an unassigned request of a company whose only other admins are lost stays pending, and every review of it is refused |
| LeaveReviewers.AssignedRequestIsStranded | apps/users/views.py:639-646 | after an account deletion, a block, a demotion or a company deactivation the requests assigned to those concerned stay as they are, other admins or not, and every review of them is refused |
| LeaveReviewers.GainStrandsNothing | apps/users/serializers.py:268-293 | activating members or companies, promotions and joining keep every reviewable request reviewable |
| LeaveReviewers.OnlyLossStrands | apps/companies/views.py:617-631 | in the step relation nothing but these losses, of an admin of the company, makes a pending request unreviewable while its author belongs to the company |
| LeaveWrites.OverwriteKeepsLedger | apps/hr/views.py:127-164 | saving an unapproved row over a request keeps the ledger iff the request is not charged as it stands |
| LeaveWrites.StaleCancelKeepsLedger | apps/hr/views.py:153-164 | a cancellation that read the request while it was pending keeps the ledger iff the request has not become charged before the save |
| LeaveWrites.StaleEditKeepsLedger | apps/hr/views.py:127-140 | the same for an edit, which saves the whole row as it was read |
| LeaveWrites.ApprovalThenStaleCancel | apps/hr/views.py:231-281 | every approval of a charged request in between breaks the ledger |
| LeaveWrites.CompanyDeletionKeepsLedger | apps/companies/views.py:1006-1009 | deleting a company keeps the ledger iff none of its requests is charged |
| LeaveWrites.ChargedCompanyIsReachable | apps/companies/views.py:778-831 | a company with a charged request that can be deleted is reached on every day |
| GuestPasses.ValidateMeaning | apps/access/models.py:59-70 | validation accepts iff the pass is active, within its dates and, for single use, unused; it counts one use and one log row, and a single-use pass is never valid again after acceptance |
| GuestPasses.RefusalMeaning | apps/access/views.py:348-364 | which refusal a pass gets: too early, too late, revoked or used, in that order |
| GuestPasses.RevokeMeaning | apps/access/views.py:181-191 | a revocation goes through iff the pass is active or revoked, and no desk accepts it afterwards |
| GuestPasses.ExpireMeaning | apps/access/tasks.py:67-69 | exactly an active pass past its end expires, and no later scan is answered otherwise for it |
| GuestPasses.ResendMeaning | apps/access/views.py:206-250 | a mail goes out iff the pass is active, the cache counts at most three, and the window is over or counts fewer than three; how it is counted |
| GuestPasses.RefusedMeaning | apps/access/views.py:217-248 | after any run of requests that do not overlap, a mail that the cache permits is refused for its pace iff the window of the last mail began at most an hour ago and three mails were sent in it |
| GuestPasses.RunKeepsCounted | apps/access/views.py:366-377 | over every run of atomic scans, revocations, expiries and resends uses are logged rows, a single-use pass is accepted at most once and no pass returns to active |
| GuestPassRaces.SaveIsValidation | apps/access/views.py:338-377 | saving what a scan read is the atomic validation of the row iff no column was written since |
| GuestPassRaces.UndisturbedIsAtomic | apps/access/views.py:338-377 | a run of overlapping scans whose saves find what they read ends as the run of atomic validations |
| GuestPassRaces.UndisturbedKeepsCounted | apps/access/views.py:338-377 | so in such a run the counts hold, a single-use pass is accepted once at most and no pass returns to active |
| GuestPassRaces.OverlappingScansBothAccept | apps/access/views.py:338-377 | two desks that read before either saves both accept any valid pass, and one use is counted |
| GuestPassRaces.RevocationIsLost | apps/access/views.py:181-191 | a revocation between the reading and the save of a multi-use pass is undone |
| GuestPassRaces.SaveKeepsLimiter | apps/access/views.py:366-371 | the save of a scan leaves the limiter in step with the mails iff neither of its columns was written since the reading |
| GuestPassRaces.UndisturbedKeepsPace | apps/access/views.py:217-248 | over every run of overlapping scans whose saves do not set the limiter back the mails keep their pace |
| GuestPassRaces.UndisturbedResendsAreLimited | apps/access/views.py:217-248 | so in such a run one window counts at most three sends and a closed hour holds at most five |
| GuestPassRaces.ScansLiftTheLimit | apps/access/views.py:338-377 | n overlapping scans of a multi-use pass let 3 n mails go out at one moment, all counted in one window, when the cache does not answer |
| GuestPasses.RunKeepsPace | apps/access/views.py:217-248 | over every run of requests that do not overlap windows are more than an hour apart and hold at most three sends each |
| GuestPasses.ResendsAreLimited | apps/access/views.py:217-248 | over such runs at most three sends are counted in one window and at most five fall into any closed hour, whatever the cache adds; more than three only if two windows meet in the hour |
| GuestPasses.FiveSendsInAnHour | apps/access/views.py:217-248 | five is reached, with a shared cache that counts every attempt and without any cache |
| BookingTable.Tables.CreateBooking | apps/bookings/serializers.py:747-801 | lock, checks, insert and the loop over displaced bookings together are the create step, and its answer is the new id or the first failing check |
| BookingTable.Tables.PatchBookingTimes | apps/bookings/views.py:1621-1676 | the time PATCH is the step that rewrites the times of a row whose new interval is free, unblocked and allowed |
| BookingTable.Tables.BlockResource | apps/bookings/views.py:1289-1301 | inserting a block cancels exactly the overlapping confirmed bookings with one audit row each |
| BookingTable.Tables.UnblockResource | apps/bookings/views.py:1320-1326 | only a block of this resource is removed |
| BookingTable.Tables.CancelBooking | apps/bookings/views.py:1778-1799 | a cancel refuses cancelled, started and too late bookings, otherwise cancels one row and audits it |
| BookingTable.Tables.AdminCancelBooking | apps/bookings/views.py:1831-1850 | an admin cancel needs a reason and cancels whatever the status was |
| BookingTable.Tables.BulkCancelBookings | apps/bookings/views.py:1890-1961 | the loop over the ids, with its two growing lists, is the bulk step on the set of eligible listed bookings |
| BookingTable.Tables.CheckInBooking | apps/bookings/views.py:2201-2224 | check-in marks a confirmed, started booking once |
| BookingTable.Tables.ScanCapsuleCode | apps/bookings/views.py:2255-2299 | a scanned capsule code is valid for a confirmed booking inside its closed interval, and marks the first arrival |
| BookingTable.Tables.MarkNoShowBookings | apps/bookings/tasks.py:187-209 | the job closes exactly the unattended meeting-room bookings that started long enough ago and have not ended |
| BookingTable.Tables.AutoCompleteBookings | apps/bookings/tasks.py:105-122 | the loop closes exactly the confirmed bookings that have ended |
| BookingTable.Tables.DeactivateResource | apps/bookings/views.py:884-891 | deactivation cancels every confirmed booking of the resource that has not ended, and does nothing the second time |
| BookingTable.Tables.DeactivateCompanyBookings | apps/companies/views.py:627-631 | deactivating a company cancels all its confirmed bookings by one update of the status |
| BookingTable.Tables.TryOccurrence | apps/bookings/tasks.py:313-334 | one date of a series: passed over, skipped because of a conflict, found again, or inserted |
| BookingTable.Tables.CreateBookingsForRecurring | apps/bookings/tasks.py:296-340 | the loop over the dates is the specification's run over them, and a failed lookup of several rows rolls everything back |
| BookingTable.Tables.CreateRecurringBooking | apps/bookings/views.py:2578-2619 | the series row and its bookings come together or not at all, after the checks of the request |
| BookingTable.Tables.ExtendSeries | apps/bookings/tasks.py:229-240 | one series is materialised over its next period and its end moved, or left as it is after a failure |
| BookingTable.Tables.GenerateRecurringBookings | apps/bookings/tasks.py:218-240 | one pass of the job over the due series in any order is the specification's pass |
| BookingTable.Tables.EditRecurringBooking | apps/bookings/views.py:2533-2537 | a PATCH of a series saves its fields as they come |
| BookingTable.Tables.DeleteRecurringBooking | apps/bookings/views.py:2626-2634 | the bookings of the series that have not started go with it, the others lose the link |
| BookingTable.Tables.DeleteBookingRow | apps/bookings/views.py:1576-1583 | the row of a booking is deleted |
| Recurrence.ListMatchingDates | apps/bookings/tasks.py:275-288 | the two loops list the specification's dates |
| Materialisation.FindCreatableOccurrence | apps/bookings/tasks.py:249-272 | the search answers whether some date of the range ends in the future |
| FreeInterval.CollectRequestedDays | apps/bookings/filters.py:125-130 | the loop collects the weekdays of all days the interval touches |
| FreeInterval.FilterFreeInterval | apps/bookings/filters.py:101-152 | the filter keeps exactly the candidates that are free, open on those weekdays and, within a day, in hours |
| FreeInterval.BusySlots | apps/bookings/schedule.py:53-98 | the listing holds each overlapping booking and block once, ordered by start |
| FreeInterval.ConflictTestByListing | apps/bookings/schedule.py:53-98 | the filter's conflict test holds iff that listing is empty |
| Numbering.OrderIds | apps/crm/views.py:48 | the rows in order of position and creation time, each once |
| Numbering.NextPosition | apps/crm/views.py:442-445 | one more than the greatest position, or 1 without rows |
| Kanban.KanbanTables.NormalizePositions | apps/crm/views.py:42-51 | the loop numbers the live tasks of the column along some order by position and creation time and touches nothing else |
| Kanban.KanbanTables.CreateTask | apps/crm/views.py:793-797 | a task is inserted at position 0 within the limit and its column renumbered |
| Kanban.KanbanTables.PatchTaskColumn | apps/crm/serializers.py:326-330 | a PATCH checks the limit of a new column, changes the column and renumbers nothing |
| Kanban.KanbanTables.MoveTask | apps/crm/views.py:999-1039 | the move is the put-down followed by the two renumberings, or nothing with the first failing check |
| Kanban.KanbanTables.ArchiveTask | apps/crm/views.py:1183-1189 | an archived task is also deleted and its column renumbered |
| Kanban.KanbanTables.UnarchiveTask | apps/crm/views.py:1221-1236 | an archived task comes back within the limit and its column is renumbered |
| Kanban.KanbanTables.DeleteTask | apps/crm/views.py:974-978 | a deleted task leaves the numbering |
| Kanban.KanbanTables.NormalizeColumns | apps/crm/views.py:532-536 | the loop numbers the columns of the board along some order by position |
| Kanban.KanbanTables.DeleteColumn | apps/crm/views.py:497-538 | live tasks move to the target within its limit, deleted ones go with the column, the rest is renumbered |
| Kanban.KanbanTables.SetWipLimit | apps/crm/serializers.py:393-401 | a limit below the number of active tasks is refused |
| Kanban.KanbanTables.AddColumn | apps/crm/views.py:440-446 | a column is added behind the others |
| Kanban.KanbanTables.MakeBoard | apps/crm/views.py:210-218 | a new board has its template's columns numbered from 0 |
| Kanban.KanbanTables.PatchColumnPosition | apps/crm/views.py:455-486 | the ranged updates and the write are one shift to the clamped position |
| Kanban.KanbanTables.ReorderColumns | apps/crm/views.py:559-587 | the loop gives each column the place of its last mention, or the list is refused |
| LeaveLedger.LeaveTables.SubmitRequest | apps/hr/serializers.py:63-146 | a request is filed after the reviewer, date, overlap and balance checks |
| LeaveLedger.LeaveTables.EditRequest | apps/hr/views.py:127-140 | the author of a pending request may rewrite it under the same checks |
| LeaveLedger.LeaveTables.CancelRequest | apps/hr/views.py:153-164 | the author of a pending request may cancel it |
| LeaveLedger.LeaveTables.GetOrCreateBalance | apps/hr/views.py:175-180 | a missing balance is opened with the company's allowance or 24 days |
| LeaveLedger.LeaveTables.ReviewRequest | apps/hr/views.py:195-281 | the review sets the status and moves the counter by the request's days, down to zero at most |
| LeaveLedger.LeaveTables.SetYearlyBalance | apps/hr/views.py:309-326 | an admin of the same company sets the total and leaves the counter |
| LeaveLedger.LeaveTables.SettlePendingLeaves | apps/companies/views.py:78-101 | the loop releases or cancels exactly the pending requests that waited for the lost reviewer |
| LeaveLedger.LeaveTables.DeactivateMember | apps/companies/views.py:683-700 | the requests are settled after the member is inactive |
| LeaveLedger.LeaveTables.RemoveFromCompany | apps/companies/views.py:778-831 | the requests are settled while the member still belongs to the company |
| LeaveLedger.LeaveTables.ChangeMemberRole | apps/companies/views.py:872-915 | a member other than a guest or superadmin becomes admin or employee, and nothing is settled |
| LeaveLedger.LeaveTables.SetUserActive | apps/users/views.py:794-818 | blocking, unblocking, activating a member and deleting one's account write the flag alone |
| LeaveLedger.LeaveTables.DeleteUserRow | apps/users/views.py:772-778 | the requests and balances of the user go too, and the references to the user become empty |
| LeaveLedger.LeaveTables.SetCompanyMembersActive | apps/companies/views.py:617-652 | one update makes every member of the company active or inactive |
| GuestPasses.PassRow.ValidateQr | apps/access/views.py:338-377 | the checks in order, and one use and one log row on acceptance |
| GuestPasses.PassRow.RevokePass | apps/access/views.py:181-191 | used and expired passes are not revoked |
| GuestPasses.PassRow.ExpirePass | apps/access/tasks.py:67-69 | only an active pass past its end expires |
| GuestPasses.PassRow.ResendMail | apps/access/views.py:206-250 | the window is reset only when a send goes through, and a refusal changes nothing |

## Left out

- BookingMeaning.CreateIsAccepted: states when a request is refused, not which of several failing checks it is refused for; that order is the one of the function and the method. The same holds of the other `...Meaning` lemmas except `GuestPasses.RefusalMeaning`.
- Times are whole minutes and the zone is a fixed offset: seconds, daylight saving and real zone rules are not modelled.
- Notifications, mails, QR images, exports, access-log rows of bookings and booking-change audits change no modelled table.
- Permissions and query scoping: what a caller of a bulk cancel may see is the parameter `reachable`; other steps take an object the caller may reach.
- Booking PATCH without times, a template PATCH that ends no later than it starts, a time PATCH that also sends the status or resource, and admin-site edits are not steps of `BookingRuns`; `UncheckedEdits` treats the first three.
- UncheckedEdits.StaleSaveKeepsAllocated: the save of a booking that was deleted in between inserts it again; a link to a series deleted in between, which the database refuses, is not modelled.
- A weekly series patched to have no weekday fails when it is next generated and is not modelled.
- Participants of a meeting-room booking: rows beside the booking that no check reads.
- Deleting a resource, bulk deactivation of resources and bulk creation: no booking check depends on them.
- The one-desk-per-user and active-booking limits are checks of a create request and no invariant, because recurring runs do not apply them.
- LockProtocol.EveryInterleavingIsConflictFree: row locks of bookings are not modelled, which admits more interleavings than the database does; access, window, duration and limit checks are left to the atomic create, because they only turn requests away.
- Leave and board requests are atomic steps; their row locks, where they take any, are not modelled. The exceptions are edits and cancellations of leave requests in `LeaveWrites`. Of the guest-pass requests only validation is split; a revocation writes one column, expiry is one statement, and a resend locks the row.
- BookingRuns.PassesAreOneRun: states the equality for a pass that picks up one series at one moment, because passes over several series or at a later moment see other bookings and skip other dates.
- Kanban.KanbanTables.DeleteColumn: archived tasks are deleted ones too and go with the column, as in the code.
- Kanban.KanbanTables.PatchColumnPosition: a PATCH that changes position and limit together is two steps here; each part is checked on the same state.
- Kanban.KanbanTables.SetWipLimit: a null limit fails on the comparison in the code and is an error answer here; a null limit for a new column, which the table refuses, is not modelled.
- Task histories, labels, checklists, comments and attachments: no position or limit depends on them.
- LeaveLedger.LeaveTables.EditRequest: takes the complete new values; a PATCH that sends some of them takes the others from the row.
- Company allowances do not change during a run of the leave ledger. Edits and cancellations that read before an approval, and the deletion of a company, are not steps of `LeaveRuns`; `LeaveWrites` treats them.
- Reception and service staff belong to no company and are not among the members of the leave ledger.
- BlockRace.BlockInsideTransaction: the row locks that a block holds on the bookings it selects are not modelled, so that some of the runs wait in the database.
- The shared resend counter of the cache is an arbitrary parameter of each resend.
- The occupancy percentage, `is_soon_available`, calendars, analytics, invitations, plan limits, onboarding, storage and service requests: no state invariant, or easy members only.
