# Service-ticket back office and FHIR report flattener, in Dafny

This project models the core of a Django back office for field-service
work and of its FHIR report renderer, and proves properties of the model.

- **FHIR flattening** (`json_helper.dfy`, module `JsonFlatten`). This is the
  walk `JsonHelper` makes over a FHIR resource. It appends, in order, a row
  per scalar, a sub-head and end-sub-head around every section list, a
  divider after the entries of `performer`, `participant`, `activity` and
  `section` lists, and a block per `contained` entry. It also decides
  which FHIR datatype handler a `dict` goes to, trying the datatypes in a
  fixed order. `JsonHelper` is a class whose methods append to
  `flattenedValues`. Each method is proved to append exactly what a
  specification function (`Flatten`, `IterMembers`, `IterList`,
  `SectionRun`, `ContainedRun`) computes, and also to raise exactly when
  that function does; the datatype handlers themselves never raise in the
  model. As the code does, `handle_contained` flattens the
  whole `contained` list once for every entry. `ContainedShape` states this
  repetition.
- **String helpers** (`core_helpers.dfy`, `text.dfy`). These cover
  `split_camel_case`, `format_date`, the `is_*` tests, the
  code/type/category lookup and the resource description. They also hold
  the character, strip, number-text and zero-padding functions the models
  use.
- **Work orders** (`service_common.dfy`, `service_models.dfy`,
  `service_serializers.dfy`). These cover the following.
  - The four-status approval machine shared by Jobs and Service Tickets.
  - Who may submit, approve, reject and close a Job or a ticket.
  - Who signs as requester and as approver.
  - Job numbers and the ticket header checks.
  - Worked hours and their text.
  - Work-block overlap validation.
  - The reconciliation of a Job's managers and mechanics lists.
  - The DB lock date.
  - The way a ticket update creates, updates and deletes its work blocks.
- **Indirect hours and users** (`users.dfy`, `time_tracker_models.dfy`,
  `time_tracker_serializers.dfy`, `user_serializers.dfy`). These cover the
  following.
  - The role predicates and a user's full name.
  - The per-time-code totals of a mechanic's indirect hours, and their
    approved working time.
  - The indirect-hours statuses, field limits, `clean` and `__str__`.
  - The write serializer's permission chain.
  - The password serializers and the single-use e-mail hash check.

A Django request's user is a parameter (`user`, `createdBy`). The database
appears as values the operations read: a Job's ticket statuses, the
work-block table as a `map`, and the cache as a `map`. Collaborators the
core calls but does not define are function-valued parameters about which
nothing is assumed. These are the FHIR datatype handlers, `LabelUtil`,
`ProfileHandler`, the date parser, `check_password` and the base64
decoder. The current time and the database's new primary keys are
parameters or a counter.

## Model

| member | source | states |
|---|---|---|
| Text.Upper | models/service_models.py:147 | `str.upper()` keeps the length and maps each character to its upper-case form, leaving non-letters alone |
| Text.StripBlank | models/service_models.py:563 | `s.strip()` is empty exactly when `s` consists of whitespace only |
| Text.StripLeft | models/service_models.py:563 | the leading part removed by `strip` is all whitespace and the result starts with a non-space |
| Text.StripRight | models/service_models.py:563 | the trailing part removed by `strip` is all whitespace and the result ends with a non-space |
| Text.LastSegment | helpers/json_helper.py:95 | `path.split('.')[-1]` is a suffix of the path, contains no dot, and is preceded by a dot when shorter than the path |
| Text.ParseNatToString | models/service_models.py:216 | the decimal text of a number reads back as that number |
| Text.PadNat | models/service_models.py:216 | `{:0Nd}` gives at least N digits that read back as the number |
| Text.TwoDigitPad | models/service_models.py:475 | `%02d` of a number below 100 is exactly two characters |
| JsonValue.Lookup | helpers/core_helpers.py:112 | `dict.get` finds nothing exactly when no member has the key, and otherwise returns the value of a member with that key |
| CoreHelpers.LeadingDigits | helpers/core_helpers.py:63 | the digit run a `[\d]{2,4}` match reads is all digits and stops at the first non-digit |
| CoreHelpers.DatePrefixExact | helpers/core_helpers.py:63-64 | the date test holds exactly when 2 to 4 digits, a dash and 1 to 2 digits open the text |
| CoreHelpers.FormatDate | helpers/core_helpers.py:59-71 | text without a date prefix, or one the parser rejects, comes back unchanged; a parsed date becomes `" yyyy-mm-dd"` |
| CoreHelpers.DateTextRoundTrip | helpers/core_helpers.py:68-69 | for a year of four digits, the formatted date reads back as the parsed year, month and day at fixed offsets |
| CoreHelpers.ReplaceSeparators | helpers/core_helpers.py:20 | every `-` and `_` becomes a space and nothing else changes |
| CoreHelpers.Capitalize | helpers/core_helpers.py:21 | `str.capitalize()` upper-cases the first character and lower-cases the rest, keeping the length |
| CoreHelpers.SplitCamelCase | helpers/core_helpers.py:16-21 | the label has no `-` or `_`, does not start with a lower-case letter, and has no upper-case letter after the first |
| CoreHelpers.SplitCamelCaseKeepsText | helpers/core_helpers.py:16-21 | ignoring case, the label's non-whitespace characters are exactly the input's non-whitespace characters other than `-` and `_`, in order; so the label is empty only when the input has no such character |
| CoreHelpers.BreaksOnlyInsertSpaces | helpers/core_helpers.py:18 | the two regex substitutions only insert spaces: the non-space characters are kept, in order |
| CoreHelpers.WordsFront | helpers/core_helpers.py:18 | `split()` returns a leading run of non-space characters as its first word |
| CoreHelpers.SplitTwoWords | helpers/core_helpers.py:16-21 | a camel-case pair `lowerUpperlower` becomes the capitalised two words separated by one space |
| CoreHelpers.SplitBirthDate | helpers/core_helpers.py:16-21 | `birthDate` becomes `Birth date` |
| CoreHelpers.CodeOrTypeOrCategory | helpers/core_helpers.py:111-118 | returns the first truthy of `code`, `type`, `category`, in that order, and `None` exactly when none is truthy |
| CoreHelpers.ResourceDescription | helpers/core_helpers.py:128-135 | a truthy `title` wins; otherwise a picked `dict` goes to `handle_codeable` itself, a picked list by its first element, a picked string by its first character, and nothing picked or a picked number or boolean fails |
| CoreHelpers.CodeListDescribedLikeCode | helpers/core_helpers.py:128-135 | a `code` concept and a `code` list that starts with that concept give the same description |
| CoreHelpers.TypeTestsExclusive | helpers/core_helpers.py:80-89 | `is_dict`, `is_list` and `is_string` (`IsDict`, `IsList`, `IsString`) are exact type tests: no value passes two of them, and a number, boolean or `None` passes none |
| JsonFlatten.FirstMatchSpec | helpers/json_helper.py:115-186 | no datatype is picked exactly when no test accepts, and a picked datatype is one whose test accepts |
| JsonFlatten.DividerAfter | helpers/json_helper.py:95-96 | a divider follows an entry exactly when the last path segment is `performer`, `participant`, `activity` or `section` |
| JsonFlatten.TimingIndex | helpers/json_helper.py:163-166 | the member a TimingRepeat extension test picks exists and is truthy |
| JsonFlatten.ScalarAppendsOneRow | helpers/json_helper.py:59-67 | a scalar appends exactly one row, its label and its text through `format_date`, which is the text itself when it has no date prefix |
| JsonFlatten.DispatchOrder | helpers/json_helper.py:115-186 | the first datatype in the fixed order whose test accepts is the one handled, and a `dict` no test accepts is iterated key by key |
| JsonFlatten.DispatchExamples | helpers/json_helper.py:116-142 | an Extension wins over every other datatype; a path ending in `class` is a CodeableConcept unless one of the first five datatypes matches |
| JsonFlatten.ClassConceptWrap | helpers/json_helper.py:135-142 | at a `class` path a node without truthy `coding` is handed over wrapped as `{'coding': [node]}`, otherwise unchanged |
| JsonFlatten.ExtensionAppend | helpers/json_helper.py:116-124 | a non-empty list from the extension handler is concatenated, anything else is appended as one value, so at least one value is appended |
| JsonFlatten.KeysInOrder | helpers/json_helper.py:80-90 | iterating a `dict` whose members each give one value yields one value per member, in member order |
| JsonFlatten.SectionWrap | helpers/json_helper.py:187-212 | a non-Relationship list at a section path is its entries between exactly one sub-head and one end-sub-head; elsewhere it is its entries |
| JsonFlatten.SuffixSectionWithoutDividers | helpers/json_helper.py:199-200 | the section rule reads the end of the whole path and the divider rule the last segment, so `Encounter.xparticipant` is a section without dividers |
| JsonFlatten.ParticipantSection | helpers/json_helper.py:199-200 | `Encounter.participant` is a section with dividers |
| JsonFlatten.DosageSection | helpers/json_helper.py:209-210 | a dosage list is a section only when `dosage` is the whole last segment |
| JsonFlatten.DividerCount | helpers/json_helper.py:92-96 | list iteration adds one divider per entry at a divider path and none elsewhere |
| JsonFlatten.WithDividers | helpers/json_helper.py:92-96 | rows each followed by a divider alternate row, divider, row, divider |
| JsonFlatten.ScalarListIsRows | helpers/json_helper.py:92-96 | a list of scalars gives each entry's row followed by what the path's divider rule adds |
| JsonFlatten.ScalarListRows | helpers/json_helper.py:92-96 | a list of scalars gives one row per entry, in order; at a divider path each row is followed by a divider |
| JsonFlatten.BlockAt | helpers/json_helper.py:69-78 | blocks laid end to end each sit at a fixed stride: head, body, end-sub-head |
| JsonFlatten.ContainedIsBlocks | helpers/json_helper.py:69-78 | looping over `contained` entries gives one block per entry, each made of the entry's sub-head, the whole list's flattening and an end-sub-head |
| JsonFlatten.ContainedShape | helpers/json_helper.py:69-78 | for a `contained` list of `dict`s, block i starts at i times the block width, carries entry i's resource type, and repeats the flattening of the whole list |
| JsonFlatten.ContainedStopsAtNonDict | helpers/json_helper.py:72-74 | an entry that is not a `dict` makes the walk raise, after the blocks of the entries before it |
| JsonFlatten.JsonHelper.StartFlattening | helpers/json_helper.py:52-57 | appends the flattening of the resource at its resource type and profile |
| JsonFlatten.JsonHelper.HandleProperty | helpers/json_helper.py:59-67 | appends exactly the scalar's row |
| JsonFlatten.JsonHelper.FlattenResource | helpers/json_helper.py:112-214 | appends exactly `Flatten`'s fragments and raises exactly when it does |
| JsonFlatten.JsonHelper.HandleTiming | helpers/json_helper.py:163-166 | a `TimingRepeat` object appends its own fragments, then everything its `extension` member flattens to, stopping where that raises |
| JsonFlatten.JsonHelper.HandleDict | helpers/json_helper.py:115-186 | runs the chosen datatype's handling of a `dict` and appends what it gives |
| JsonFlatten.JsonHelper.IterDictObject | helpers/json_helper.py:80-90 | appends the members' walks in member order, stopping at the first that raises |
| JsonFlatten.JsonHelper.IterMember | helpers/json_helper.py:83-90 | a `div` key appends its raw row, a `contained` key goes to the contained handler, any other key is flattened at `path.key` |
| JsonFlatten.JsonHelper.IterDictList | helpers/json_helper.py:92-96 | appends each entry's walk, followed by a divider at a divider path |
| JsonFlatten.JsonHelper.ListEntry | helpers/json_helper.py:93-96 | one entry's walk, then its divider if the path calls for one |
| JsonFlatten.JsonHelper.CreateSection | helpers/json_helper.py:98-110 | appends the sub-head, labelled from the path's own profile when there is one, then the entries, then the end-sub-head |
| JsonFlatten.JsonHelper.HandleContainedEntry | helpers/json_helper.py:72-76 | appends the entry's sub-head, the flattening of the whole list and an end-sub-head |
| JsonFlatten.JsonHelper.HandleContained | helpers/json_helper.py:69-78 | a list gives one block per entry; anything else is flattened as is |
| ServiceCommon.FromCode | models/service_models.py:36-46 | a column value names a status exactly when it is 1 to 4, and that status's code is the value |
| ServiceCommon.CodeRoundTrip | models/service_models.py:36-46 | each status is named by its own code |
| ServiceCommon.HoursWorked | models/service_models.py:644-648 | the duration is missing exactly when either time is missing, and otherwise it is the time from start to end |
| ServiceCommon.CleanWorkBlock | models/service_models.py:659-665 | a block is refused, on `start_time`, exactly when both times are set and the start is after the end |
| ServiceCommon.CleanBlockDuration | models/service_models.py:659-665 | a block that passes `clean` has a non-negative duration |
| ServiceModels.ValidateStatus | models/service_models.py:72-95 | a transition passes exactly when the record was pending, keeps its status, or moves to pending; a refusal is on `status` with the original status's message |
| ServiceModels.TransitionTable | tests/test_service_models.py:34-71 | Open cannot go to Rejected or Approved, Rejected and Approved cannot swap, and anything may go to or come from pending |
| ServiceModels.CommonSave | models/service_models.py:97-106 | open to pending signs the user as requester, reopening clears the requester, pending to approved signs the approver, every save at pending (including pending to pending) clears the approver, and nothing else changes them |
| ServiceModels.SubmitThenApprove | tests/test_service_models.py:101-125 | submitting then approving records the submitter as requester and the approver as approval |
| ServiceModels.ReopenForgetsRequester | models/service_models.py:99-101 | reopening always clears the requester and keeps the approval |
| ServiceModels.EnteringIsNotStaying | models/service_models.py:282-287 | the Job's check asks whether a status is entered, the ticket's (lines 581-586) whether it is kept, and the two never hold together |
| ServiceModels.AllTicketsApproved | models/service_models.py:238-245 | passes exactly when every ticket of the Job is approved |
| ServiceModels.RoleMayClose | models/service_models.py:258-274 | a Job a biller requested may be closed only by a superuser, manager or admin, one a manager requested only by a superuser, admin or biller; without a requester the check faults |
| ServiceModels.WhoMayClose | models/service_models.py:258-267 | a superuser may always close, anyone may close a Job whose requester is neither biller nor manager, and a plain mechanic may not close a biller's Job |
| ServiceModels.JobCleanStatus | models/service_models.py:219-227 | a Job status passes exactly when the transition is valid, entering pending or approved needs every ticket approved, and entering approved needs the closing role |
| ServiceModels.UnapprovedTicketBlocksSubmission | tests/test_service_models.py:74-87 | one unapproved ticket stops both submitting and approving the Job |
| ServiceModels.JobClean | models/service_models.py:289-297 | a new Job is refused exactly when its status is not Open |
| ServiceModels.JobNumberRoundTrip | models/service_models.py:216 | the number text is the four-character `yymm`, a dash and at least four digits that read back as the number id |
| ServiceModels.Job.Save | models/service_models.py:97-106 | the signers become those `CommonSave` assigns and nothing else changes |
| ServiceModels.Job.GenerateNumber | models/service_models.py:209-216 | a set number id is kept; otherwise, with exactly one Settings row, the number id becomes what NextNumberId gives for that row's starting point, and with none or several `get()` fails and the id stays unset; the number text is rendered from the id, and other fields stay |
| ServiceModels.NewNumberIdAhead | models/service_models.py:210-215 | a new number id is never below the starting point and always above the last Job's id, is the starting point when there is no Job, and is missing only when the last Job has none |
| ServiceModels.NumberIdKept | models/service_models.py:210 | a number id already set is kept whatever the table holds |
| ServiceModels.MissingHeaderFields | models/service_models.py:317-326 | the list of empty header fields is empty exactly when all seven fields are filled |
| ServiceModels.RequiredErrors | models/service_models.py:514-517 | one `"<name> is required."` error per missing field, in field order |
| ServiceModels.TicketCleanStatus | models/service_models.py:503-523 | a ticket status passes exactly when the transition is valid, only an admin edits a ticket that stays approved, and pending needs a full header and a work block |
| ServiceModels.TicketClean | models/service_models.py:525-573 | the job is required and must not be approved, a new ticket must be Open on a non-pending Job, only the requester mechanic may change a submitted ticket, a rejection needs a reason, and a ticket keeps its Job |
| ServiceModels.RejectionNeedsReason | tests/test_service_models.py:200-222 | a non-mechanic rejecting with a blank reason is refused |
| ServiceModels.NoReassignment | models/service_models.py:567-572 | moving a ticket to another Job is refused |
| ServiceModels.ServiceTicket.Save | models/service_models.py:588-595 | submitting stamps the submission time and clears the approval time after an approval; entering approved stamps the approval time |
| ServiceModels.TotalWorkedHours | models/service_models.py:466-475 | the text is that of the summed durations of the blocks whose two times are set |
| ServiceModels.HoursTextRoundTrip | models/service_models.py:466-475 | a positive total reads as hours, `h `, two digits of minutes below 60 and `m`, giving back the whole minutes |
| ServiceModels.OneHourThirty | tests/test_service_models.py:402-431 | blocks with a missing time are skipped, and an hour plus half an hour read `1h 30m` |
| ServiceModels.NinetyMinutesText | tests/test_service_models.py:402-431 | 5400 seconds read `1h 30m` |
| ServiceModels.Location.Save | models/service_models.py:146-148 | the name is stored upper-cased |
| ServiceModels.UpperIdempotent | models/service_models.py:146-148 | saving twice stores the same name as saving once |
| ServiceSerializers.WithoutElems | serializers/service_serializers.py:155-156 | the comprehension keeps exactly the ids of the first list that are not in the second, and never more entries than the list had |
| ServiceSerializers.Dedup | serializers/service_serializers.py:153 | `OrderedDict.fromkeys` gives the same ids with each one once |
| ServiceSerializers.FromKeys | serializers/service_serializers.py:153 | the loop keeps the first occurrence of each id, in order |
| ServiceSerializers.AddPass | serializers/service_serializers.py:155 | the add list is the requested ids not related yet, and the pass leaves the related ids not requested |
| ServiceSerializers.RemovePass | serializers/service_serializers.py:156 | after the add pass every remaining related id is removed |
| ServiceSerializers.NewList | serializers/service_serializers.py:152-157 | the add and remove lists are the requested ids not yet related and the related ids not requested |
| ServiceSerializers.NewListReconciles | serializers/service_serializers.py:152-163 | no id is both added and removed, and removing then adding leaves exactly the requested set |
| ServiceSerializers.Relation.DelAndAdd | serializers/service_serializers.py:159-163 | the relation becomes its old ids minus the removed ones plus the added ones, without duplicates |
| ServiceSerializers.Relation.Replace | serializers/service_serializers.py:172-177 | a missing list leaves the relation as it was; a given list becomes its exact set |
| ServiceSerializers.UpdateJobRelations | serializers/service_serializers.py:165-178 | managers and mechanics are each replaced by the requested set when given and kept otherwise |
| ServiceSerializers.JobWriteValidate | serializers/service_serializers.py:183-201 | a mechanic is refused on `created_by`; anyone else passes exactly when `Job.clean` does, and a new Job that is not Open is refused under `non_field_errors`, where DRF files the message-only error |
| ServiceSerializers.ValidateWorkBlock | serializers/service_serializers.py:315-346 | both times are required and ordered, and the block passes exactly when no other block of the same mechanic overlaps it |
| ServiceSerializers.OverlapSymmetric | serializers/service_serializers.py:326-329 | the overlap test is symmetric |
| ServiceSerializers.AcceptedBlockIsDisjoint | serializers/service_serializers.py:340-344 | an accepted block ends before, or starts after, every other timed block of its mechanic |
| ServiceSerializers.TouchingBlocksAccepted | serializers/service_serializers.py:326-329 | a block that starts when another ends does not overlap it |
| ServiceSerializers.HoursWorkedText | serializers/service_serializers.py:292-294 | there is no text exactly when the duration is missing or zero |
| ServiceSerializers.HoursWorkedTextRoundTrip | serializers/service_serializers.py:292-294 | the text is hours, a colon and two digits of minutes, giving back the whole minutes |
| ServiceSerializers.SubmitRoleCheck | serializers/service_serializers.py:457-468 | managers and billers cannot submit, and mechanics cannot approve or reject; every other status is returned as it is |
| ServiceSerializers.SubmitRoleCheckFacts | serializers/service_serializers.py:457-468 | Open is never refused, and a user in none of the three groups is never refused |
| ServiceSerializers.DbLockCheck | serializers/service_serializers.py:579-580 | an undated ticket is never checked; for a dated one, a lock table without exactly one row raises from `get()`, and with one row the ticket is refused as DB-locked exactly when it is dated before a set lock date |
| ServiceSerializers.TicketWriteValidate | serializers/service_serializers.py:574-596 | the lock check's refusal or fault comes first; then the verdict is `ServiceTicket.clean`'s, with a message-only refusal filed under `non_field_errors` and never under `__all__` |
| ServiceSerializers.LockDateItselfIsOpen | serializers/service_serializers.py:579-580 | with one lock row, the lock date itself is writable and the day before is not |
| ServiceSerializers.TicketIds | serializers/service_serializers.py:501 | the ids of exactly this ticket's blocks |
| ServiceSerializers.Prune | serializers/service_serializers.py:524-526 | deleting blocks removes exactly those ids and keeps the others unchanged |
| ServiceSerializers.EntryStep | serializers/service_serializers.py:504-523 | an entry without a mechanic is refused; an entry that is written has passed the block validation against the table as it stands |
| ServiceSerializers.RunStops | serializers/service_serializers.py:503-523 | the entry loop stops at its first error, whatever entries follow |
| ServiceSerializers.RunFacts | serializers/service_serializers.py:503-523 | a run without error creates one block per entry without an id under fresh keys, leaves other tickets' blocks alone, and records every id it updated |
| ServiceSerializers.WorkBlockTable.ApplyEntries | serializers/service_serializers.py:503-523 | the loop leaves the table, the key counter and the updated ids that the entry-loop function gives |
| ServiceSerializers.WorkBlockTable.ApplyEntry | serializers/service_serializers.py:504-523 | one entry changes the table as one step of the loop does, and a refused entry changes nothing |
| ServiceSerializers.WorkBlockTable.DeleteBlocks | serializers/service_serializers.py:524-526 | the table loses exactly the given ids |
| ServiceSerializers.WorkBlockTable.UpdateEmployeeWorks | serializers/service_serializers.py:490-526 | an empty string deletes the ticket's blocks, a missing field changes nothing, and a list runs the entries then deletes the ticket's blocks it did not name; an error keeps the writes before it |
| ServiceSerializers.WorksReconcile | serializers/service_serializers.py:490-526 | after a successful list, a block of this ticket survives exactly when the list names it, other tickets' blocks are unchanged, and the new keys are one per new entry |
| ServiceSerializers.EntryFieldCheck | serializers/service_serializers.py:284-346 | one entry of the nested field: an entry without a mechanic is refused on `employee` with "Employee name is required.", and any other entry gets the block validation against the table as stored |
| ServiceSerializers.EntrySlots | serializers/service_serializers.py:404 | one error slot per entry of the `many=True` field, slot `i` holding entry `i`'s error and empty where that entry passed |
| ServiceSerializers.WorksFieldCheck | serializers/service_serializers.py:404 | the nested `employee_works` field (`many=True`) passes exactly when every entry passes its check against the table as stored; otherwise its error is the list of all slots, slot `i` being entry `i`'s error |
| ServiceSerializers.FieldCheckSeesStoredTable | serializers/service_serializers.py:490-526 | a list that moves block 5 away and adds a new block in its old hours passes the entry loop, but the field check, which runs first, refuses it with an empty first slot and the overlap error in the second |
| UserModels.FullName | models/user_models.py:51-55 | the first name, one space, then the last name |
| UserModels.RoleTests | models/user_models.py:60-74 | `is_admin`, `is_manager`, `is_biller` and `is_mechanic` (`IsAdmin` … `IsMechanic`) test membership of the groups named `admin`, `Manager`, `Biller` and `Mechanic`, case included; no group means no role, and roles combine |
| UserModels.ArchivedIffNotActive | models/user_models.py:76-78 | `is_status_archived` (`IsStatusArchived`) is a plain test of the status column; for a status among the two choices it holds exactly when the user is not active |
| UserModels.AdminAccount.Save | models/user_models.py:99-104 | a new admin is saved as a superuser; an existing one keeps its flag |
| UserModels.GetUniqueIndirectHours | models/user_models.py:145-151 | one total per time code that occurs, equal to the sum of that code's hours |
| UserModels.HoursInAllCodes | models/user_models.py:145-151 | summing the per-code totals over any superset of the codes gives the grand total |
| UserModels.UniqueHoursSumToTotal | models/user_models.py:145-151 | the per-code totals add up to the sum of all hours |
| UserModels.GetTotalWorkingTime | models/user_models.py:153-167 | the sum of the durations of approved, non-archived, fully timed blocks dated in the range |
| UserModels.EmptyRangeCountsNothing | models/user_models.py:153-167 | a range whose start is after its end counts nothing |
| UserModels.WorkingSecondsSplit | models/user_models.py:153-167 | the time over a range is the time over its two halves |
| UserModels.WorkingSecondsNonNegative | models/user_models.py:153-167 | blocks that pass `clean` give a non-negative total |
| TimeTrackerModels.HoursCode | models/time_tracker_models.py:34-42 | the status codes are 1 to 3, and 1 is pending |
| TimeTrackerModels.HoursStatusOf | models/time_tracker_models.py:34-51 | a column value names a status exactly when it is 1 to 3 |
| TimeTrackerModels.HoursCodeRoundTrip | models/time_tracker_models.py:34-51 | codes and statuses correspond one to one |
| TimeTrackerModels.CheckHoursAccepts | models/time_tracker_models.py:54-58 | hours pass exactly when they are at most 24 and have at most five digits; a refusal lists on `hours` the message of every failing validator, the maximum-value message before the digits message, so a value of 1000 hours or more gets both |
| TimeTrackerModels.CleanFacts | models/time_tracker_models.py:83-87 | a new record passes exactly when pending, a stored one always passes, and a refusal is one non-field message holding the text `{'status': '...'}` that `mark_safe` makes of the dict, not an error on `status` |
| TimeTrackerModels.MechanicNames | models/time_tracker_models.py:81 | one full name per mechanic, in order |
| TimeTrackerModels.HoursStrShape | models/time_tracker_models.py:80-81 | `Hours of `, then the first mechanic's full name, two spaces before the next, with the length of the prefix, the names and the separators |
| TimeTrackerSerializers.RaiseIfNotStatus | serializers/time_tracker_serializers.py:96-98 | passes exactly when `status` is the only key |
| TimeTrackerSerializers.ValidateMechanic | serializers/time_tracker_serializers.py:90-94 | a mechanic must name themself first; an empty list faults; anyone else passes |
| TimeTrackerSerializers.ManagerOrBillerSendsStatusOnly | serializers/time_tracker_serializers.py:103-108 | a manager or biller who sends any key besides `status` is refused, and may create only with `status` alone |
| TimeTrackerSerializers.PendingRecord | serializers/time_tracker_serializers.py:113-116 | on a pending record, admins, managers and billers may send only `status` |
| TimeTrackerSerializers.RejectedRecord | serializers/time_tracker_serializers.py:117-120 | a rejected record may be updated by anyone but a manager or biller |
| TimeTrackerSerializers.ApprovedRecord | serializers/time_tracker_serializers.py:121-124 | an approved record may be edited freely only by an admin; everyone else may send only `status` |
| TimeTrackerSerializers.CreationStatus | serializers/time_tracker_serializers.py:125-130 | a permitted creation passes exactly when its status is pending, and is otherwise refused with `clean`'s message under `non_field_errors` |
| TimeTrackerSerializers.StoredNeverRefusedOnStatus | serializers/time_tracker_serializers.py:125-130 | a permitted update of a stored record always passes `clean` |
| TimeTrackerSerializers.HoursRecord.SetAttrs | serializers/time_tracker_serializers.py:127-129 | every sent value is set on the record: the status when sent, every other key into its attributes |
| TimeTrackerSerializers.IndirectHoursWriteSerializer.CheckPermission | serializers/time_tracker_serializers.py:103-124 | the permission chain for the serializer's own stored record: managers and billers send only `status`, then the rule for the record's current status |
| TimeTrackerSerializers.IndirectHoursWriteSerializer.Validate | serializers/time_tracker_serializers.py:100-133 | the verdict is `Decision`'s: the permission chain, then `clean`; the mechanic list is restored on success; a permitted update sets the sent values on the record |
| TimeTrackerSerializers.Decision | serializers/time_tracker_serializers.py:100-133 | the permission chain's refusal, else `clean`'s verdict as DRF reports it: never an error under `__all__` |
| UserSerializers.PasswordFieldAccepts | serializers/user_serializers.py:44-45 | a password field is valid exactly when given and at least 8 characters once stripped, and the value is the stripped text |
| UserSerializers.FieldErrors | serializers/user_serializers.py:44-45 | there are no field errors exactly when every field is valid |
| UserSerializers.PasswordValidate | serializers/user_serializers.py:47-51 | passes exactly when the two passwords match, and a mismatch is reported on `password_check` |
| UserSerializers.PasswordFormAccepts | serializers/user_serializers.py:44-51 | the form passes exactly when both fields are valid and equal |
| UserSerializers.UpdatePasswordValidate | serializers/user_serializers.py:66-71 | passes exactly when the new password differs from the old and matches its check; reusing the old one is reported first, on `old_password` |
| UserSerializers.ValidateOldPassword | serializers/user_serializers.py:60-64 | the current password passes exactly when the user's password check accepts it |
| UserSerializers.UpdatePasswordOrder | serializers/user_serializers.py:66-71 | with valid fields, reusing the old password is reported before a mismatch |
| UserSerializers.CacheKey | serializers/user_serializers.py:89 | the cache key starts with the action |
| UserSerializers.HashCheck | serializers/user_serializers.py:84-96 | an undecodable hash is an invalid link, and a successful check returns the decoded data |
| UserSerializers.HashSingleUse | serializers/user_serializers.py:88-95 | with an action, the hash passes exactly when the cache holds the decoded data under its key, and a second use of the same hash is refused |
| UserSerializers.HashWithoutAction | serializers/user_serializers.py:88 | without an action the cache is neither read nor changed, and any decodable hash passes |
| UserSerializers.Cache.Get | serializers/user_serializers.py:90 | `cache.get` returns the stored value or nothing |
| UserSerializers.Cache.Delete | serializers/user_serializers.py:95 | `cache.delete` removes exactly that key |
| UserSerializers.HashSerializer.ValidateHash | serializers/user_serializers.py:84-96 | the verdict and the cache afterwards are those of the single-use hash rule |

## Left out

- Views, admin classes, URL routes, `xml_helper.py` and `healthcare_models.py` are not part of this model.
- `decorate_flat_value` wraps `handle_property`, and `apply_constrains` wraps `handle_contained` and `flatten_resource`. Their code is not part of this model, so the walk is modelled without them.
- `gettext` (`_()`) is the identity here; `mark_safe` is the identity on strings, and its one dict argument (in `IndirectHours.clean`) becomes the dict's text.
- The FHIR datatype classes, `LabelUtil`, `ProfileHandler`, `String.profile_id` and `RelationshipHandler` appear only through what they return. They are not part of this model.
- `TimingRepeat.has_extension` is not part of this model either. It is modelled as picking one of the node's own truthy members (`TimingIndex`), which keeps the walk finite.
- JsonFlatten.JsonHelper.FlattenResource: the HumanName, ContactPoint, Address, Activity, Communication and ReferenceRange handlers receive the helper itself and append to it, re-entering `flatten_resource`. Their code is not part of this model, so they are modelled as appending what an uninterpreted handler returns, and a raise inside them is not modelled.
- `format_date`'s parser is a parameter. Only `ValueError` is modelled as its failure, and other exceptions of the parser are not.
- `str()` of a `dict` or a list is a parameter (`Env.show`, `IdText`'s `showOther`).
- UserSerializers.CacheKey: a number carries the text Python's `str()` gives for the decoded value, not its JSON source text. The conversion from one to the other (`1e2` gives `100.0`, `1.50` gives `1.5`) is not modelled.
- Case mapping is modelled for ASCII letters only; non-ASCII characters keep their case.
- CoreHelpers.FormatDate: `[\d]` is modelled as the ASCII digits. Python's `\d` also matches other Unicode decimal digits, so a prefix such as `١٢-3` is a date prefix there and not here.
- `is_string`'s `SafeString` is an ordinary string in the JSON model.
- Floating point is not modelled: `round(sum / 3600, 2)`, `time_worked` in hours and mileage totals.
- `UserModels.GetTotalWorkingTime` returns whole seconds, because the rounding to hours is floating point.
- `TimeTrackerModels.CheckHoursAccepts` works in whole hundredths. Decimals with more than two decimal places, and their "decimal places" error, are not modelled.
- TimeTrackerModels.CheckHoursAccepts: the messages for hours are Django's default texts, and the digit check assumes the value is written with its two decimal places; the "digits before the decimal point" message that a value written with fewer decimal places gets instead is not modelled.
- The field validators `validate_perm` (models/time_tracker_models.py:51) and `validate_request_job_perm` (models/service_models.py:179) are defined in models/model_validators.py, which is not part of this model.
- Notifications, the audit log, file deletion and `generate_random_200_id` are left out, because they are side effects outside the core.
- Persistence is modelled only as the values and maps the operations read, and primary keys as a counter. Transactions are absent: an error in the work-block loop keeps earlier writes, as the code does.
- `clean_status` is modelled as a check of its own. Which form calls it is not modelled.
- ServiceSerializers.WorkBlockTable.UpdateEmployeeWorks models the update method on its own. The nested field check that runs before it is `WorksFieldCheck`, and the two are not composed into one operation.
- `ServiceTicketWriteSerializer.create`, `update_attachments`, `validate_created_by` and the attachment checks of `validate` are not modelled.
- `EmployeeWorkBlock.clean_employee` is not modelled: it checks that a block's mechanic belongs to the Job.
- Django REST framework field conversion is not modelled beyond `CharField`'s required, blank, strip and minimum-length rules. `null` values and the `id` key of a work-block entry are taken as given; the exception is the work-block entry's `employee`, whose missing or null value `EntryFieldCheck` refuses.
- UserSerializers.HashCheck: compares the cached and the decoded data with Dafny's equality on the model's values, which is stricter than Python's `==` in three ways. Members of a nested object compare in order, where Python's dict `==` ignores order. Numbers compare by their text, where Python has `1 == 1.0`. `True` and `False` differ from `1` and `0`, where Python has `True == 1`. Data that differ only in these ways are refused by the model and accepted by the source.
- A JSON object with repeated keys is not modelled: keys are read through their first occurrence.
