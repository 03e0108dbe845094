# Startkladde flight log tools, modelled in Dafny

This project models the core of *python-startkladde*, a set of Python 2 tools around the MySQL
database of the Startkladde glider flight log. The core covers:

- the value objects of the database: flights, pilots, airplanes, launch methods, columns and
  tables;
- the `Record` that bundles a flight with its participants and resolves their ids
  (`updateFlight`);
- the `Database` queries the tools use, over an in-memory store of flights and catalogue tables;
- the `ConflictHandler` that decides, with its warning mask and its mode, whether an imported
  flight is inserted, skipped, or replaces conflicting flights;
- the CSV reader that turns an exported flight list back into records and merges towflights into
  their glider flights;
- the import tool with its alias file and its club filter;
- the statistics tool that adds up landings and flight time per plane and day;
- the export tool that writes the CSV file and builds the SQL time filter;
- the mail template engine, which replaces `${field}` and `${call()}` with a recipient's data;
- the small utilities: umlaut transliteration, member reflection and the admin tool's user
  option.

Every Python module is one Dafny module under `src/`. The entities the code changes in place
(the conflict handler, the flight store, the CSV reader, the statistics tool, the mailer, the
alias table, a table's column list, a reflected object, the admin configuration) are classes.
Each loop of the source is a method whose `ensures` ties its result to a specification function.
Value objects are datatypes, and the pure code is functions and lemmas. Dates and times are
integers of seconds. `strftime` and `strptime` with the tool's formats are function parameters.

## Model

| member | source | states |
|---|---|---|
| Ascii.Transl | pysk/utils/ascii.py:3-9 | a table letter becomes text free of table letters; any other character is kept |
| Ascii.ToAscii | pysk/utils/ascii.py:13-29 | the loop of `str.replace` calls over the table yields exactly the per-character transliteration |
| Ascii.ReplaceNext | pysk/utils/ascii.py:26-27 | one more `replace` extends the partial transliteration by the next table entry |
| Ascii.TranslComplete | pysk/utils/ascii.py:26-29 | once every entry is applied, the text is the transliteration |
| Ascii.AllReplacementsApplied | pysk/utils/ascii.py:3-9 | all table entries applied to one character give its replacement |
| Ascii.StepTransl | pysk/utils/ascii.py:26-27 | entry k applied after the first k entries gives the first k+1 |
| Ascii.FlatMapAppend | pysk/utils/ascii.py:27 | per-character replacement distributes over concatenation |
| Ascii.FlatMapFuse | pysk/utils/ascii.py:26-27 | two replacement passes equal one pass with the composed replacement |
| Ascii.TransliterateShape | pysk/utils/ascii.py:13-29 | no table letter remains, and text without table letters is unchanged |
| Ascii.KeepPlain | pysk/utils/ascii.py:13-29 | text without umlauts or apostrophes is returned unchanged |
| Ascii.TransliterateIdempotent | pysk/utils/ascii.py:13-29 | converting twice equals converting once |
| Ascii.TransliterateAppend | pysk/utils/ascii.py:13-29 | the conversion of a concatenation is the concatenation of the conversions |
| AsciiExamples.TransliterateONeal | test/utils/ascii.py:16 | "O'Neal" becomes "ONeal" |
| AsciiExamples.TransliterateOertliche | test/utils/ascii.py:15 | "Das Örtliche" becomes "Das Oertliche" |
| AsciiExamples.TransliterateOUmlaut | pysk/utils/ascii.py:6 | "Ö" becomes "Oe" |
| Members.LeastExists | pysk/utils/iterMembers.py:13 | every non-empty set of names has a least name, the start of `dir()`'s sorted order |
| Members.LeastUnique | pysk/utils/iterMembers.py:13 | the least name is unique |
| Members.Least | pysk/utils/iterMembers.py:13 | the least name of a non-empty set of names: a member of the set below every other member |
| Members.SortedNames | pysk/utils/iterMembers.py:13 | `dir()` lists each attribute name exactly once |
| Members.SortedNamesAscending | pysk/utils/iterMembers.py:13 | `dir()`'s names are in strictly ascending order |
| Members.IterMembers | pysk/utils/iterMembers.py:3-22 | yields (name, value) exactly for the attributes that are not `__…`, not ignored and not callable |
| Members.Pairs | pysk/utils/iterMembers.py:13-22 | the pairs for a list of names are exactly the yielded attributes among them, with their values |
| Members.Copied | pysk/utils/iterMembers.py:25-36 | after copying, dest has its old attributes plus the yielded ones, with the source's values on the yielded ones |
| Members.CopiedExactly | pysk/utils/iterMembers.py:25-36 | an object that agrees with the copy's description name by name is the copy |
| Members.Instance.CopyMembers | pysk/utils/iterMembers.py:25-36 | the `setattr` loop leaves exactly the copied attributes and keeps every other attribute of dest |
| Members.EqualFrom | pysk/utils/iterMembers.py:52-56 | true iff every pair matches the other object, false only on a mismatch, AttributeError for a missing attribute |
| Members.EqualMembers | pysk/utils/iterMembers.py:39-56 | true iff every yielded attribute of the first object equals the other's; a missing one raises AttributeError |
| Members.EqualMembersReflexive | test/utils/iterMembers.py:51 | every object has equal members to itself |
| Members.IgnoringTheDifference | test/utils/iterMembers.py:53-55 | ignoring the only attribute that differs makes two objects compare equal |
| Members.CopyThenEqual | test/utils/iterMembers.py:36-40 | after `copyMembers(src, dest)`, `equalMembers(src, dest)` holds |
| Columns.NewColumn | pysk/db/column.py:8-30 | a new column has no name, type, index or default, does not allow NULL, and has an empty `extra` |
| Columns.Default | pysk/db/column.py:54-63 | "NULL" exactly when there is no default, otherwise text in single quotes |
| Columns.DefaultUnquotes | pysk/db/column.py:60-63 | removing the quotes from `default()` gives the default value back |
| Columns.AutoIncrementSuffix | pysk/db/column.py:44-50 | an `extra` ending in "auto_increment" marks auto increment |
| Tables.Table.constructor | pysk/db/table.py:11-19 | the table holds the given columns in order |
| Tables.Table.AppendColumn | pysk/db/table.py:23-29 | the column is appended at the end and nothing else changes |
| Tables.Table.Format | pysk/db/table.py:41-47 | "(" then one "%s" per column separated by commas, then ")" |
| Tables.Table.GetColumnByName | pysk/db/table.py:50-64 | returns the first column with the name; raises KeyError with the message exactly when no column has it |
| Tables.Table.ToTuple | pysk/db/table.py:67-100 | the object's attribute for each column, in column order; fails exactly when some column's attribute is missing |
| Tables.Values | pysk/db/table.py:76-77 | one value per column, in order, or failure at a missing attribute |
| Airplanes.NewAirplane | pysk/db/model/airplane.py:30-47 | every attribute of a new airplane is `None` |
| Airplanes.OrderMatchesEquality | pysk/db/model/airplane.py:64-97 | `==` holds exactly when neither is `<` the other; `<` is a strict order; equal planes have equal hashes and equal `str` |
| Airplanes.StrIdentifies | pysk/db/model/airplane.py:50-56 | two airplanes print the same exactly when they are equal |
| LaunchMethods.NewLaunchMethod | pysk/db/model/launch_method.py:27-46 | every attribute of a new launch method is `None` |
| LaunchMethods.EqualityConsistent | pysk/db/model/launch_method.py:63-84 | `==` by name is an equivalence, and equal methods have equal hashes and equal `str` |
| LaunchMethods.StrIdentifies | pysk/db/model/launch_method.py:49-55 | two launch methods print the same exactly when they are equal |
| AdminTool.Config.constructor | bin/sk.py:132-150 | user "startkladde", host "localhost", and `user` is their join with "@" |
| AdminTool.Config.SetUsername | bin/sk.py:110-127 | one field sets the user name only; two fields set the stripped user and host; three or more raise IOError and change nothing |
| AdminTool.ParseUser | bin/sk.py:113-127 | accepted exactly when the option holds at most one "@" |
| AdminTool.NoHostKeepsHost | bin/sk.py:117-119 | an option without "@" is the user name and keeps the configured host |
| AdminTool.JoinThenParse | bin/sk.py:121-124 | "u@h" yields user and host, each stripped |
| AdminTool.SeveralAtsRejected | bin/sk.py:126-127 | two or more "@" are rejected |
| AdminTool.JoinPlainParses | bin/sk.py:147 | the default option built by joining user and host parses back into them |
| AdminTool.DefaultUserParses | bin/sk.py:143-147 | parsing the joined option round-trips any user and host without "@" or surrounding blanks |
| Flights.NewFlight | pysk/db/model/flight.py:62-120 | every attribute of a new flight is `None` |
| Flights.LessIsStrictOrder | pysk/db/model/flight.py:137-147 | for flights with departure times `<` never fails and is a strict order; flights with equal departure times are unordered and all others are ordered |
| Flights.Less | pysk/db/model/flight.py:137-147 | `<` compares departure times; a flight with a departure time against one without raises TypeError, and two flights without one are unordered |
| Flights.Pic | pysk/db/model/flight.py:150-159 | the copilot is in command on a "training_2" flight, the pilot otherwise |
| Flights.Duration | pysk/db/model/flight.py:162-168 | defined exactly when both times exist, and then departure plus duration is landing; otherwise a TypeError |
| Flights.Update | pysk/db/model/flight.py:244-254 | the three flags become 1 or 0 by the presence of the matching time; nothing else changes |
| Flights.UpdateIdempotent | pysk/db/model/flight.py:244-254 | updating twice equals updating once, and each flag is 1 exactly when its time is set |
| Flights.DepartureText | pysk/db/model/flight.py:171-188 | "" without a departure time, otherwise the formatted time |
| Flights.LandingText | pysk/db/model/flight.py:191-208 | "" without a landing time, otherwise the formatted time |
| Flights.SimilarGuard | pysk/db/model/flight.py:211-233 | `similar` proceeds exactly when both flights have landing and departure times, plane and pilot; otherwise a RuntimeError |
| Pilots.NewPilot | pysk/db/model/pilot.py:22-41 | every attribute of a new pilot is `None` |
| Pilots.OrderMatchesEquality | pysk/db/model/pilot.py:58-92 | `==` on (last name, first name) holds exactly when neither is `<` the other; `<` is a strict order; equal pilots have equal hashes and equal `str` |
| Pilots.GenerateUsername | pysk/db/model/pilot.py:95-104 | defined exactly when both names have a word; then the transliteration of the lower-cased first word of the first name, ".", and the lower-cased last word of the last name; a missing first name raises AttributeError |
| Pilots.GenerateUsernameLowercase | pysk/db/model/pilot.py:97-99 | lower-casing after the transliteration gives the promised all-lowercase user name, defined on the same pilots |
| Pilots.LowerAscii | pysk/db/model/pilot.py:99 | lower-casing leaves no ASCII capital |
| Pilots.UsernameNotLowercase | pysk/db/model/pilot.py:101-104 | a first name starting with "Ä", "Ö" or "Ü" gives a user name starting with a capital |
| Pilots.CapitalSurvives | pysk/db/model/pilot.py:101-104 | a leading umlaut survives `lower()` and turns into a capital ASCII letter |
| Pilots.SkipWhile | pysk/db/model/pilot.py:123 | the end of the longest run of matching characters from a position |
| Pilots.LastQuote | pysk/db/model/pilot.py:123 | the last quote in a range, or none exactly when the range holds no quote |
| Pilots.MatchAt | pysk/db/model/pilot.py:123 | a match of `key\s*=\s*'(.+)'` is the key, the gaps, a non-empty quoted value and the closing quote, inside the text |
| Pilots.Search | pysk/db/model/pilot.py:125 | a found match starts at or after the position and is a match there |
| Pilots.SearchLeftmost | pysk/db/model/pilot.py:125 | `search` finds the leftmost match, and none exactly when no position matches |
| Pilots.GetCommentField | pysk/db/model/pilot.py:107-128 | `None` for empty comments or no match; otherwise the non-empty captured value of the leftmost match |
| Pilots.SetComments | pysk/db/model/pilot.py:131-163 | KeyError exactly for an empty key; only the comments change |
| Pilots.SetCommentFieldAsWritten | pysk/db/model/pilot.py:131-163 | the setter with its pattern `key s*=`, which needs no blanks before "="; KeyError exactly for an empty key |
| Pilots.SetCommentField | pysk/db/model/pilot.py:131-163 | the setter with the getter's pattern `key\s*=`; KeyError exactly for an empty key |
| Pilots.SetThenGetOnEmpty | pysk/db/model/pilot.py:145-150 | on empty comments, setting a one-line value and reading it back gives the value |
| Pilots.NoMatchNoSearch | pysk/db/model/pilot.py:154 | no match at any position means `search` finds nothing |
| Pilots.SearchAtStart | pysk/db/model/pilot.py:154 | a match at the start is the one found |
| Pilots.SetCommentsOnMatch | pysk/db/model/pilot.py:156-160 | a found field is replaced in place: stripped text before it, the new field, the text after it, stripped |
| Pilots.FieldTextEnds | pysk/db/model/pilot.py:144-145 | a field text starts with the key and ends with a quote |
| Pilots.StripWholeField | pysk/db/model/pilot.py:158-160 | replacing comments that are one whole field leaves exactly the new field |
| Pilots.ReplaceWholeField | pysk/db/model/pilot.py:156-160 | comments that are one field become the new field |
| Pilots.SetThenGetWholeField | pysk/db/model/pilot.py:131-163 | for comments that are one field, set then get returns the new value |
| Pilots.AppendWhenMissing | pysk/db/model/pilot.py:161-163 | without a match the new field is appended after "; " |
| PilotExamples.SpacedFieldMatches | pysk/db/model/pilot.py:123 | the getter's pattern matches "k = 'a'" |
| PilotExamples.SpacedFieldMissed | pysk/db/model/pilot.py:152 | the setter's pattern does not match "k = 'a'" |
| PilotExamples.SetThenGetWithSpace | pysk/db/model/pilot.py:131-163 | with the getter's pattern, setting "k" to "b" on "k = 'a'" reads back "b" |
| PilotExamples.SetThenGetAsWrittenFails | pysk/db/model/pilot.py:152-163 | as written, setting "k" to "b" on "k = 'a'" gives "k = 'a'; k='b'", and reading "k" then gives "a'; k='b" |
| PilotExamples.AppendedSpelling | pysk/db/model/pilot.py:163 | appending the field to "k = 'a'" spells "k = 'a'; k='b'" |
| PilotExamples.AppendedFieldsMatch | pysk/db/model/pilot.py:123-128 | on "k = 'a'; k='b'" the greedy value runs to the last quote |
| Records.MakeRecord | pysk/db/record.py:37-88 | a missing participant becomes an empty object; an untyped launch method with a towplane registration, a fully named towpilot or its own towplane registration becomes "airtow"; an airtow method without a towplane registration takes the towplane's; nothing else of the method changes |
| Records.MakeRecordStable | pysk/db/record.py:80-88 | constructing a record again from a record's own parts changes nothing |
| Records.Spaced | pysk/db/record.py:180 | `replace("_", " ")`: every underscore becomes a blank and every other character stays |
| Records.Label | pysk/db/record.py:179-181 | the message label is the attribute name with blanks for underscores |
| Records.WithIds | pysk/db/record.py:188 | the flight gets exactly the given id columns and nothing else changes |
| Records.FirstUnresolvedSpec | pysk/db/record.py:147-148 | no participant is reported exactly when all have a truthy id; a reported one is in the list and has none |
| Records.FillStep | pysk/db/record.py:150-154 | resolving one more participant after a list resolves the extended list |
| Records.SetCritical | pysk/db/record.py:147-148 | the first critical participant without an id raises RecordError "Unknown …"; otherwise every critical id is copied |
| Records.SetOthers | pysk/db/record.py:150-154 | the loop copies every non-critical id there is and collects one warning per participant without one, in order |
| Records.UpdateFlight | pysk/db/record.py:118-158 | the method computes exactly the specified update |
| Records.CriticalFirst | pysk/db/record.py:128-132 | the critical participants are checked as pilot, plane, then launch method unless inbound |
| Records.UpdatedFails | pysk/db/record.py:118-148 | a missing mode raises AttributeError; otherwise the update fails exactly when pilot or plane, or a non-inbound launch method, has no id, with the message naming the first of them |
| Records.FillBoth | pysk/db/record.py:147-154 | after both loops, critical ids are copied and other ids are copied when present |
| Records.UpdatedIds | pysk/db/record.py:131-154 | pilot and plane ids are copied; an inbound flight gets launch method 0; a non-airtow flight gets towplane and towpilot 0; a known towplane, towpilot or copilot id is copied and an unknown one leaves the column unchanged |
| Records.OthersWarnings | pysk/db/record.py:136-154 | one warning each for an unknown towplane and towpilot on airtow, then for an unknown, fully named copilot |
| Records.UpdatedWarnings | pysk/db/record.py:118-158 | the returned warnings are exactly those, in that order |
| Records.PreparedMessage | pysk/db/record.py:131-145 | the preparing assignments do not change any participant's message |
| Records.UpdatedFrame | pysk/db/record.py:142-156 | the participants stay; the record's own `copilot_id` becomes 0 exactly when the copilot is not fully named; the flight's flags are recomputed and its times, mode and type stay |
| Database.Minute | pysk/db/database.py:225-228 | the default time format truncates a time to the whole minute at or below it |
| Database.HasElement | pysk/db/database.py:137-140 | a non-empty id set has an element |
| Database.MinExists | pysk/db/database.py:137-140 | every non-empty id set has a least element |
| Database.Min | pysk/db/database.py:137-140 | the least id of a non-empty set |
| Database.SortedIds | pysk/db/database.py:137-140 | the stored ids in strictly ascending order, each exactly once |
| Database.Matching | pysk/db/database.py:128-140 | the ids whose rows pass the WHERE clause, in the given order |
| Database.QueryIds | pysk/db/database.py:110-140 | `SELECT * FROM flights WHERE …` returns exactly the rows that pass the clause, in ascending id order |
| Database.RowsOf | pysk/db/database.py:139-140 | one row per returned id, in order |
| Database.SimilarIsSimultaneous | pysk/db/database.py:210-265 | every flight `iterSimilarFlights` returns, whatever its extra filter, is one `iterSimultaneousFlights` returns |
| Database.MatchingNone | pysk/db/database.py:128-140 | a clause no row passes returns nothing |
| Database.NoLandingNoOverlap | pysk/db/database.py:225-228 | a candidate without landing time overlaps no stored flight, so both queries return nothing |
| Database.SimilarToItself | pysk/db/database.py:246-258 | a stored local flight with a pilot, whole-minute times and landing after departure is similar to itself |
| Database.InsertRowEffect | pysk/db/database.py:303-328 | REPLACE overwrites the row with the same id, INSERT IGNORE keeps it, a NULL or 0 id gets a fresh AUTO_INCREMENT id, and no other row changes |
| Database.InsertRowsValid | pysk/db/database.py:327-328 | inserting a list keeps every row under its own id and never removes a row |
| Database.IdFilterPlaceholders | pysk/db/database.py:434 | "id IN (…)" has exactly one "%s" per id |
| Database.Without | pysk/db/database.py:398-418 | `DELETE … WHERE id IN (…)` keeps exactly the rows whose id is not listed, unchanged |
| Database.Store.constructor | pysk/db/database.py:16-37 | the store holds the given table |
| Database.Store.Insert | pysk/db/database.py:345-356 | `insertFlights(rows, force)` executes one insert per row, in order |
| Database.Store.DeleteById | pysk/db/database.py:421-447 | an empty id list does nothing; otherwise exactly the listed flights are deleted |
| Database.Where | pysk/db/database.py:110-140 | the rows of a table the clause accepts, no more than the table holds |
| Database.Unique | pysk/db/database.py:571-597 | the single result when there is exactly one; KeyError "Found no result matching …" for none and "Found more than one result matching …" for two or more |
| Database.UniqueById | pysk/db/database.py:601-618 | `None` without a query for a falsy id; otherwise the only row with that id, or KeyError |
| Database.PilotById | pysk/db/database.py:622-633 | `None` without a query for a falsy id; otherwise succeeds exactly when one stored pilot has the id, returns it, and else raises KeyError |
| Database.PlaneById | pysk/db/database.py:637-648 | `None` without a query for a falsy id; otherwise succeeds exactly when one stored plane has the id, returns it, and else raises KeyError |
| Database.LaunchMethodById | pysk/db/database.py:652-664 | `None` without a query for a falsy id; otherwise succeeds exactly when one stored launch method has the id, returns it, and else raises KeyError |
| Database.PilotByName | pysk/db/database.py:668-686 | the only stored pilot with these first and last names, or KeyError |
| Database.PlaneByRegistration | pysk/db/database.py:690-704 | the only stored plane with this registration, or KeyError |
| Database.LaunchMethodByName | pysk/db/database.py:708-731 | the only stored method with this name, or also this short name when short names are allowed, or KeyError |
| Database.LaunchMethodByTowplane | pysk/db/database.py:735-753 | the only airtow method with this towplane registration, or KeyError; a `None` registration raises TypeError |
| Database.GetDictionary | pysk/db/database.py:269-299 | one entry per key that occurs, holding the last row with that key |
| ConflictHandlers.MessagesMembers | pysk/db/conflict_handler.py:214-224 | a message is yielded exactly for the table entries whose flag is active |
| ConflictHandlers.ReEnable | pysk/db/conflict_handler.py:184-200 | enabling a disabled flag that was enabled restores the mask |
| ConflictHandlers.DisableThenEnable | pysk/db/conflict_handler.py:184-224 | disabling and re-enabling a warning leaves the reported messages unchanged |
| ConflictHandlers.Suffixes | pysk/db/conflict_handler.py:19-25 | the suffixes of the seven-entry warning table, one entry at a time |
| ConflictHandlers.MessagesChain | pysk/db/conflict_handler.py:222-224 | each table entry contributes its message exactly when its flag is active |
| ConflictHandlers.WarningsExample | pysk/db/conflict_handler.py:19-25 | no raised flag reports nothing; missing landing time and departure location report both; disabling one reports only the other |
| ConflictHandlers.Raised | pysk/db/conflict_handler.py:113-137 | `isValid` raises only the four time and location flags |
| ConflictHandlers.RaisedFlags | pysk/db/conflict_handler.py:121-133 | each location flag is raised exactly when its location is falsy; the departure time flag exactly for a non-inbound flight without departure time; the landing time flag exactly for a non-outbound flight without landing time; the launch method, pilot and plane flags never |
| ConflictHandlers.DuplicateIsEquivalence | pysk/db/conflict_handler.py:279-307 | `isDuplicate` is reflexive and symmetric, and ignores id and comments |
| ConflictHandlers.AnyDuplicate | pysk/db/conflict_handler.py:157-160 | the loop finds a duplicate exactly when some conflict is a duplicate of the flight |
| ConflictHandlers.IdsOf | pysk/db/conflict_handler.py:264 | `map(attrgetter("id"), …)`: the ids of the conflicts, in order |
| ConflictHandlers.SkipNeverInserts | pysk/db/conflict_handler.py:228-244 | skipping or aborting adds no flight and changes no row; aborting, or skipping a candidate without id, changes nothing |
| ConflictHandlers.KeptIsUpserted | pysk/db/conflict_handler.py:107-109 | a kept candidate is written with `REPLACE` under its key, and no other row changes |
| ConflictHandlers.IdsOfRows | pysk/db/conflict_handler.py:147-149 | the ids of the rows fetched for a list of ids are that list |
| ConflictHandlers.ConflictIds | pysk/db/conflict_handler.py:147-149 | the conflicts are the stored flights similar to the candidate with a higher id |
| ConflictHandlers.ConflictsAreSimilar | pysk/db/conflict_handler.py:147-149 | every conflict is stored, has a higher id than the candidate and is similar to it |
| ConflictHandlers.RowsStored | pysk/db/conflict_handler.py:147-149 | fetched rows are stored under their own ids |
| ConflictHandlers.ConflictsStored | pysk/db/conflict_handler.py:147-149 | every conflict is stored under its own id |
| ConflictHandlers.ReplaceLeavesNoConflict | pysk/db/conflict_handler.py:255-265 | after replacing, no conflict other than the one whose id the candidate takes is left, and the candidate is stored |
| ConflictHandlers.DuplicateIsSkipped | pysk/db/conflict_handler.py:156-160 | in every mode a duplicate among the conflicts skips the candidate |
| ConflictHandlers.RejectKeepsOnlyClean | pysk/db/conflict_handler.py:98-99 | REJECT_ON_CONFLICT keeps a candidate exactly when it has no enabled warning and no conflict, and skips it otherwise |
| ConflictHandlers.IgnoreKeepsAll | pysk/db/conflict_handler.py:100 | IGNORE_ALL_CONFLICTS keeps every candidate except an exact duplicate |
| ConflictHandlers.CleanIsKept | pysk/db/conflict_handler.py:102-109 | a candidate without warnings or conflicts is kept in every mode |
| ConflictHandlers.OnlyInteractiveAborts | pysk/db/conflict_handler.py:96-97 | only the interactive mode aborts, on an "a" reply, and only it replaces, on an "r" reply to conflicts |
| ConflictHandlers.ConflictHandler.constructor | pysk/db/conflict_handler.py:39-54 | mode as given, all warnings enabled, none raised, counters 0, no candidate |
| ConflictHandlers.ConflictHandler.AddWarning | pysk/db/conflict_handler.py:172-180 | the flag is added to the raised ones and nothing else changes |
| ConflictHandlers.ConflictHandler.EnableWarning | pysk/db/conflict_handler.py:184-190 | the flag is added to the enabled ones and nothing else changes |
| ConflictHandlers.ConflictHandler.DisableWarning | pysk/db/conflict_handler.py:194-200 | the flag is removed from the enabled ones and nothing else changes |
| ConflictHandlers.ConflictHandler.IsValid | pysk/db/conflict_handler.py:113-137 | the raised flags gain those of the flight; valid exactly when no raised flag is enabled |
| ConflictHandlers.ConflictHandler.Abort | pysk/db/conflict_handler.py:228-232 | the candidate is dropped and RuntimeError "Program aborted by user." is raised |
| ConflictHandlers.ConflictHandler.SkipCandidate | pysk/db/conflict_handler.py:236-244 | a candidate with an id is deleted and counted; the candidate is dropped in any case |
| ConflictHandlers.ConflictHandler.ReplaceConflicts | pysk/db/conflict_handler.py:255-265 | a candidate without id takes the first conflict's id and counts as inserted; the other conflicts are deleted and all are counted |
| ConflictHandlers.ConflictHandler.ReplaceConflictsAsWritten | pysk/db/conflict_handler.py:255-265 | as written, a candidate without id raises AttributeError and changes nothing; one with an id deletes all conflicts |
| ConflictHandlers.ConflictHandler.Act | pysk/db/conflict_handler.py:62-66 | the reply's action: abort, replace (the corrected replace), skip or keep, with its effect on the table, the candidate and the counters |
| ConflictHandlers.ConflictHandler.Resolve | pysk/db/conflict_handler.py:152-168 | no conflicts change nothing; a duplicate skips; the interactive mode acts on the reply, replacing with the corrected replace; REJECT_ON_CONFLICT skips |
| ConflictHandlers.ConflictHandler.HandleConflicts | pysk/db/conflict_handler.py:141-168 | queries the similar flights with a higher id, then resolves them (with the corrected replace) |
| ConflictHandlers.ConflictHandler.CheckCandidate | pysk/db/conflict_handler.py:87-100 | the raised flags are the flight's; a clean candidate goes on; otherwise the interactive reply or the mode decides to abort, skip or go on |
| ConflictHandlers.ConflictHandler.Proceed | pysk/db/conflict_handler.py:102-109 | after the conflicts are handled (with the corrected replace), a remaining candidate is upserted |
| ConflictHandlers.ConflictHandler.Call | pysk/db/conflict_handler.py:78-109 | the outcome is the decision of mode, warnings, duplicates and replies, with exactly its effect on the table, the candidate and the counters (with the corrected replace); it fails exactly on an abort, and the table it leaves is the effect of the outcome computed from the mask and the table before the call |
| CsvReaders.HeaderColumnsSpec | pysk/db/csv_reader.py:208-230 | every mapped column is a known field and refers to the last header cell that names it in lower case; every field some cell names is mapped |
| CsvReaders.HeaderColumnsKnown | pysk/db/csv_reader.py:219-223 | the header yields only fields of the column map |
| CsvReaders.HeaderColumnsLast | pysk/db/csv_reader.py:217-227 | a later cell with the same name overrides an earlier one |
| CsvReaders.HeaderColumnsFound | pysk/db/csv_reader.py:217-227 | a field named by some cell has a column |
| CsvReaders.Get | pysk/db/csv_reader.py:274-293 | the cell of the field's column; no value for an absent optional field; KeyError "Mandatory field … not found" for an absent mandatory one; IndexError for a short row |
| CsvReaders.GetAfterHeader | pysk/db/csv_reader.py:208-293 | after the header is read, a field is the cell under its last header column |
| CsvReaders.TowpilotNeverNamed | pysk/db/csv_reader.py:50-72 | the column map has no towpilot names, so both always read as absent |
| CsvReaders.Lookup | pysk/db/csv_reader.py:296-332 | a missing cell raises AttributeError; an empty cell gives no value; otherwise the lower-cased cell's entry, or KeyError |
| CsvReaders.LookupIgnoresCase | pysk/db/csv_reader.py:302 | the lookup does not depend on case |
| CsvReaders.TowflightModeColumnMissing | pysk/db/csv_reader.py:322-332 | without a towflight mode column the code as written fails on every row while the intended reading gives no mode; with the column both agree |
| CsvReaders.AirplaneStub | pysk/db/csv_reader.py:335-360 | a plane with just the registration, exactly when the registration is non-empty |
| CsvReaders.LaunchMethodStub | pysk/db/csv_reader.py:408-419 | a launch method with just the name, exactly when the name is non-empty |
| CsvReaders.PilotStub | pysk/db/csv_reader.py:363-405 | a pilot with just the two names, exactly when either is non-empty |
| CsvReaders.NoTowpilot | pysk/db/csv_reader.py:393-405 | no row ever has a towpilot |
| CsvReaders.GetTime | pysk/db/csv_reader.py:535-548 | no time when date or time is empty or missing; otherwise `strptime` of "dateTtime", whose failure is an error |
| CsvReaders.ParseId | pysk/db/csv_reader.py:259 | the dbid cell as a number, missing exactly when the cell is |
| CsvReaders.GetFlightNeedsColumns | pysk/db/csv_reader.py:252-271 | reading a flight needs every mandatory flight column |
| CsvReaders.GetFlightCanonical | pysk/db/csv_reader.py:75-91 | a read flight's type and modes are values of the flight type and mode maps |
| CsvReaders.ImportRecordParts | pysk/db/csv_reader.py:233-249 | an imported record's flight is the read flight, and plane, pilot, copilot and launch method were read |
| CsvReaders.MandatoryPresent | pysk/db/csv_reader.py:21-37 | the fifteen fields make up the mandatory set |
| CsvReaders.ImportNeedsMandatory | pysk/db/csv_reader.py:21-37 | a row imports only when every mandatory column exists |
| CsvReaders.ImportCanonical | pysk/db/csv_reader.py:233-271 | an imported flight's type and modes are canonical values |
| CsvReaders.ImportedSplit | pysk/db/csv_reader.py:182-188 | importing two blocks of rows is importing each, records and errors alike |
| CsvReaders.ImportedCount | pysk/db/csv_reader.py:182-188 | every non-empty line is either a record or an error |
| CsvReaders.IsTowflight | pysk/db/csv_reader.py:450-461 | a missing type raises AttributeError; otherwise true exactly for the type "towflight" in any case |
| CsvReaders.FindRecordById | pysk/db/csv_reader.py:464-481 | the first record with the id, none for a missing id or when no record has it |
| CsvReaders.FindFromSpec | pysk/db/csv_reader.py:477-481 | the search from a position finds the first record with the id |
| CsvReaders.MergeTowflights | pysk/db/csv_reader.py:484-532 | the while loop with its `pop` computes the specified merge |
| CsvReaders.KeptAppend | pysk/db/csv_reader.py:484-532 | the non-tow records of a concatenation are those of the parts, and every record is kept or dropped |
| CsvReaders.KeptOne | pysk/db/csv_reader.py:502-503 | one record is kept exactly when it is no towflight |
| CsvReaders.KeptUpdate | pysk/db/csv_reader.py:522-527 | writing the tow data into a record keeps it a glider record with the same base |
| CsvReaders.KeptRemove | pysk/db/csv_reader.py:530-532 | popping a towflight removes no glider record |
| CsvReaders.GlidersAppend | pysk/db/csv_reader.py:484-532 | the glider records of a concatenation are those of the parts |
| CsvReaders.MergeStepKeeps | pysk/db/csv_reader.py:522-532 | one merge keeps the glider records and removes one towflight |
| CsvReaders.MergeStepTyped | pysk/db/csv_reader.py:498-532 | one merge does not change whether the remaining records all have a type |
| CsvReaders.MergeFromKeeps | pysk/db/csv_reader.py:484-532 | the merge fails exactly when a remaining record has no type; otherwise it keeps the glider records and never grows the list |
| CsvReaders.MergedFails | pysk/db/csv_reader.py:450-461 | merging fails exactly when some record has no flight type |
| CsvReaders.MergedKeepsGliders | pysk/db/csv_reader.py:484-532 | a merge keeps every glider record and removes only towflights; the records removed are the towflights merged away |
| CsvReaders.CsvReader.constructor | pysk/db/csv_reader.py:101-112 | no columns and no errors |
| CsvReaders.CsvReader.AnalyseHeader | pysk/db/csv_reader.py:208-230 | the columns become the old ones updated by the header's |
| CsvReaders.CsvReader.ImportRows | pysk/db/csv_reader.py:180-196 | with the corrected towflight-mode getter: the records of the rows that import, in order; the error count grows by the rows that fail |
| CsvReaders.CsvReader.Read | pysk/db/csv_reader.py:146-205 | with the corrected towflight-mode getter: an empty file raises StopIteration; otherwise the header sets the columns, the other rows are imported, errors are counted, and towflights are merged on request with the number merged |
| FlightImport.MissingCategory | pysk/tools/import_flights.py:160-173 | a data line before any header: as written the unbound `category` raises NameError; corrected, the IOError "Missing category" is raised |
| FlightImport.StepAgrees | pysk/tools/import_flights.py:133-202 | with a header seen, or on a line that is no data line, the corrected step is the step as written |
| FlightImport.SkippedLine | pysk/tools/import_flights.py:139-143 | blank and comment lines change nothing |
| FlightImport.HeaderLine | pysk/tools/import_flights.py:145-157 | a `[…]` line selects its category: brackets and blanks stripped, lower-cased; the aliases stay |
| FlightImport.UnknownCategory | pysk/tools/import_flights.py:160-173 | a data line under an unknown category raises IOError "Unknown category …" naming the line before it and listing the categories |
| FlightImport.WrongColumns | pysk/tools/import_flights.py:175-179 | a data line without exactly one ":" raises IOError "Found n columns, expected 2" |
| FlightImport.PilotLineFields | pysk/tools/import_flights.py:183-196 | a pilot key or value without exactly one "," raises IOError, the key checked first |
| FlightImport.PilotLine | pysk/tools/import_flights.py:181-200 | a pilot line maps the stripped (last, first) key to the stripped (last, first) value, overwriting an earlier entry |
| FlightImport.SingleFieldLine | pysk/tools/import_flights.py:175-200 | a plane or launch method line maps the stripped key to the stripped value in its own dictionary; the pilots stay |
| FlightImport.RunAppend | pysk/tools/import_flights.py:133-200 | reading two blocks of lines is reading the first, then, unless it failed, the second from the state it left |
| FlightImport.AliasTable.constructor | pysk/tools/import_flights.py:29-31 | the three alias dictionaries start empty |
| FlightImport.AliasTable.ImportAliases | pysk/tools/import_flights.py:104-200 | the loop leaves exactly the aliases of the line-by-line reading, and fails with its first error; with `asWritten` that reading is the step as written (NameError before any header), otherwise the corrected step |
| FlightImport.AliasedPilot | pysk/tools/import_flights.py:349-353 | an alias changes only the pilot's first and last name |
| FlightImport.AliasedPlane | pysk/tools/import_flights.py:378-381 | an alias changes only the registration |
| FlightImport.AliasedMethod | pysk/tools/import_flights.py:404-407 | an alias changes only the name |
| FlightImport.UpdatePilot | pysk/tools/import_flights.py:334-360 | the result is PilotLookup's: a pilot without names stays; otherwise, after its alias, the single stored pilot with its names, or it is kept and recorded as missing under (last, first) |
| FlightImport.UpdatePlane | pysk/tools/import_flights.py:363-387 | the result is PlaneLookup's: a plane without registration stays; otherwise, after its alias, the single stored plane with the registration, or it is kept and recorded as missing |
| FlightImport.UpdateLaunchMethod | pysk/tools/import_flights.py:390-441 | the result is MethodLookup's: after the alias, the first lookup with a single result wins: name or short name; for airtow the towplane, then "Airtow (other)"; for self launch "Self launch"; otherwise it is recorded as missing; an airtow without towplane raises TypeError |
| FlightImport.Resolve | pysk/tools/import_flights.py:293-300 | the six lookups in the source's order, exactly as Completed composes them |
| FlightImport.PilotLookupMissing | pysk/tools/import_flights.py:334-360 | the pilot found does not depend on `missing`; only the pilots of `missing` change, gaining exactly the key of a pilot not found |
| FlightImport.PlaneLookupMissing | pysk/tools/import_flights.py:363-387 | the plane found does not depend on `missing`; only the planes of `missing` change, gaining exactly the key of a plane not found |
| FlightImport.MethodLookupMissing | pysk/tools/import_flights.py:390-441 | whether the launch-method lookup fails, and the method it finds, do not depend on `missing`; a failure is TypeError; the pilots and planes of `missing` do not change |
| FlightImport.CompletedSpec | pysk/tools/import_flights.py:293-300 | completing a record fails exactly when the launch-method lookup does, with TypeError; otherwise each participant is its own lookup's, whatever the others recorded as missing, and nothing but the six participants changes |
| FlightImport.CompletedMissing | pysk/tools/import_flights.py:293-300 | after completing a record, `missing` holds its old keys and exactly those of the participants no lookup found |
| FlightImport.CompletedIgnoresMissing | pysk/tools/import_flights.py:293-300 | the completed record, and whether completion fails, do not depend on what earlier records left in `missing` |
| FlightImport.ModeNumber | pysk/tools/import_flights.py:274-276 | "ignore", "interactive" and "replace" map to IGNORE_ALL_CONFLICTS, INTERACTIVE and REJECT_ON_CONFLICT; any other mode raises KeyError |
| FlightImport.LowerTwice | pysk/tools/import_flights.py:285 | lower-casing is idempotent |
| FlightImport.ClubIgnoresCase | pysk/tools/import_flights.py:283-306 | the club filter does not depend on the case of the configured club |
| FlightImport.ClubMatchesSpec | pysk/tools/import_flights.py:302-306 | with a club set, a record passes exactly when pilot, copilot or plane belongs to the club, ignoring case |
| FlightImport.AdmitSpec | pysk/tools/import_flights.py:302-319 | only club records whose update succeeds reach the handler, with recomputed flags; the only exception that stops the import is the AttributeError of a record without mode |
| FlightImport.PassIgnoresMissing | pysk/tools/import_flights.py:287-319 | what one pass of the loop hands on does not depend on `missing` |
| FlightImport.PassErrors | pysk/tools/import_flights.py:287-319 | one pass fails only with the launch-method TypeError or the AttributeError of a flight without mode |
| FlightImport.HandedAdmitted | pysk/tools/import_flights.py:302-319 | every record that reaches the handler is of the club, and its flight has the flags `updateFlight` recomputes |
| FlightImport.HandedCons | pysk/tools/import_flights.py:287-319 | the records handed on from a list are those of its first record followed by those of the rest |
| FlightImport.ImportedHanded | pysk/tools/import_flights.py:253-332 | the records a run hands to the handler are a prefix of those Admit passes, in order, and all of them when the run succeeds |
| FlightImport.ImportedErrors | pysk/tools/import_flights.py:253-332 | a run ends only with the launch-method TypeError, the AttributeError of a flight without mode or the operator's abort, never with a RecordError |
| FlightImport.ImportedStep | pysk/tools/import_flights.py:287-332 | one pass of the loop as Imported takes it: an exception ends the run with the records handed on so far, and otherwise the run goes on from the table and `missing` the pass left |
| FlightImport.CreateFlight | pysk/tools/import_flights.py:287-319 | one record: the record handed on is the one Pass gives (completed, of the club and updated by Admit), or none; a RecordError skips, the TypeError of the launch-method lookup and the AttributeError of a flight without mode end the import, and for a handed record the store changes by exactly the handler's outcome computed from the table before it, failing exactly on an abort |
| FlightImport.CreateFlights | pysk/tools/import_flights.py:253-332 | an unknown mode raises KeyError and touches nothing; otherwise the result, the store, `missing` and the records handed to the handler are exactly Imported's, with every warning enabled: the records in order, each completed and admitted, its outcome applied to the table, up to the first exception |
| PlaneStats.HoursMinutes | pysk/tools/stats.py:358-361 | floor division into whole hours and minutes: the minutes are below 60 and the seconds left over are below a minute |
| PlaneStats.FlightTimeStr | pysk/tools/stats.py:355-363 | hours and minutes, each padded to at least two digits, joined by ":" |
| PlaneStats.Pad2Digits | pysk/tools/stats.py:363 | `{:02d}` writes the decimal digits of the number, exactly two for a number below 100 |
| PlaneStats.HoursMinutesOfNat | pysk/tools/stats.py:358-361 | for a non-negative duration, the hours are s / 3600 and the minutes (s mod 3600) / 60 |
| PlaneStats.FlightTimeText | pysk/tools/stats.py:355-363 | for a non-negative duration the text reads back as its hours, a colon and two digits of minutes |
| PlaneStats.ColonParts | pysk/tools/stats.py:363 | "hh:mm" splits back into the hours text and the minutes text |
| PlaneStats.MissingFields | pysk/tools/stats.py:113-128 | at most one message per mandatory field |
| PlaneStats.MissingFieldsSpec | pysk/tools/stats.py:122-126 | "missing f" is reported exactly for the fields the flight lacks, and none exactly when it has all |
| PlaneStats.HasErrorsExamples | pysk/tools/stats.py:40-43 | a complete flight has no errors; an empty one lacks all four fields, in order |
| PlaneStats.Date | pysk/tools/stats.py:341-350 | the formatted departure date; a flight without departure time raises TypeError |
| PlaneStats.Seat | pysk/tools/stats.py:193-196 | "2" exactly when the flight has a copilot, else "1" |
| PlaneStats.ParseDate | pysk/tools/stats.py:312-320 | `strptime` of the text, whose failure is a ValueError |
| PlaneStats.BoundsStepCases | pysk/tools/stats.py:309-325 | one date gives that day to the next; an unparsable date a ValueError; two or more colons a RuntimeError |
| PlaneStats.BoundsStepRange | pysk/tools/stats.py:315-320 | "a:b" sets the start from a non-empty a and the end from a non-empty b, and keeps the other bound |
| PlaneStats.TimeConstraints | pysk/tools/stats.py:303-336 | fails exactly when the range fails to parse; otherwise the filter of its bounds |
| PlaneStats.TimeBoundsCases | pysk/tools/stats.py:307-325 | no range gives no bounds; one date gives that day; two colons raise RuntimeError "Invalid time string …" |
| PlaneStats.BoundsFilterShape | pysk/tools/stats.py:327-336 | empty exactly without bounds; "departure_time >= start", "departure_time < end", or both joined by " AND " |
| PlaneStats.Stats.constructor | pysk/tools/stats.py:13-38 | no entry, no day, and all counters and times zero |
| PlaneStats.Stats.HasErrors | pysk/tools/stats.py:113-128 | the loop collects exactly the missing-field messages |
| PlaneStats.Stats.MayAdd | pysk/tools/stats.py:132-150 | true exactly when commander, departure location, landing location and date match the current entry; comparing the date of a flight without departure time raises TypeError |
| PlaneStats.Stats.AddEntry | pysk/tools/stats.py:187-208 | adds the seat and the landing, counts one landing and the duration in the entry, the day and the total; a flight without duration raises TypeError |
| PlaneStats.Stats.NewEntry | pysk/tools/stats.py:154-170 | the entry restarts from the flight with one landing and its duration |
| PlaneStats.Stats.NewDay | pysk/tools/stats.py:174-183 | the day becomes the flight's date and its tally restarts; TypeError without departure time |
| PlaneStats.Stats.EntryEvent | pysk/tools/stats.py:221-247 | one line for the current entry, marked first of the day exactly when it holds all the day's landings; it fails exactly when a day, the pilot in command, a location or a time is missing, in the order the format arguments are evaluated: TypeError for the day, AttributeError for the pilot `db.pilot` returns as None for a falsy id, AttributeError for a location, TypeError for the times |
| PlaneStats.Stats.Step | pysk/tools/stats.py:76-106 | a flight joins the current entry or starts a new one after printing the old one, with the daily sums of the old day and a header when the date changes; the day tally restarts with a new day and grows otherwise; every flight adds one landing and its duration to the total; it fails exactly when the flight lacks a time or the entry it prints cannot be printed, with that error |
| PlaneStats.Stats.PrintStats | pysk/tools/stats.py:66-109 | succeeds exactly when every flight has a duration and every entry it prints can be printed (those closed by the next flight have their locations, the last one its locations and a pilot in command, and so does the entry current before the run when the first flight closes it or there are no flights); it fails only with TypeError or AttributeError; the totals add all landings and flight time; the output ends with the last entry and the daily sums |
| PlaneStats.Stats.PrintFlights | pysk/tools/stats.py:76-106 | the loop over the flights fails exactly when some flight lacks a time, a flight closes an entry lacking a location, or the first flight closes an entry current before the run that cannot be printed; otherwise the totals add every flight and the last flight's entry is current; without flights nothing changes |
| PlaneStats.Stats.Advance | pysk/tools/stats.py:76-106 | a step after a flight fails exactly when the next flight lacks a time or closes the previous flight's entry while that flight lacks a location; from the run's start, when it lacks a time or closes the current entry and that entry cannot be printed |
| PlaneStats.Stats.AfterEntry | pysk/tools/stats.py:221-247 | after a flight, its entry prints exactly when the flight had a pilot in command and both locations, and fails otherwise with the AttributeError for the missing pilot or the missing location |
| PlaneStats.Stats.AfterClosing | pysk/tools/stats.py:93-106 | after a flight, a timed flight closes the entry exactly when it differs in pilot in command, route or date |
| PlaneStats.ErrorEvents | pysk/tools/stats.py:79-83 | an error report is printed exactly when a mandatory field is missing, and it lists the missing fields |
| PlaneStats.PrefixSnoc | pysk/tools/stats.py:76-106 | one more flight adds its time to the sum, its presence of times to the timed ones, and the entry it closes to the closed ones |
| PlaneStats.NotPrintable | pysk/tools/stats.py:98 | an entry closed by the next flight and lacking a location makes the run fail |
| PlaneStats.NotTimed | pysk/tools/stats.py:200 | one flight without duration is enough to fail |
| Mailers.MakeElement | pysk/utils/mailer.py:33-44 | "string", "attribute" and "functor" make that kind of element; any other type raises KeyError |
| Mailers.Render | pysk/utils/mailer.py:47-62 | a literal gives its text, an attribute the recipient's value or AttributeError when it has none, a functor its result on the recipient |
| Mailers.LineEnd | pysk/utils/mailer.py:86 | the end of the line: the next newline or the end of the text |
| Mailers.LineEndFirst | pysk/utils/mailer.py:86 | no newline lies before the line end |
| Mailers.LastBrace | pysk/utils/mailer.py:86 | a closing brace in the range |
| Mailers.LastBraceLast | pysk/utils/mailer.py:86 | the brace found is the last one in the range, and none exactly when there is none |
| Mailers.MatchAt | pysk/utils/mailer.py:86 | a match of `\$\{(.+)\}` at a position starts with "${", ends with "}" and holds a non-empty name |
| Mailers.MatchLine | pysk/utils/mailer.py:86 | the greedy name stays on one line and runs to the last "}" of that line |
| Mailers.Search | pysk/utils/mailer.py:210-230 | a match found from a position is a match there or later |
| Mailers.SearchLeftmost | pysk/utils/mailer.py:210-230 | `search` finds the leftmost match, and none exactly when there is none |
| Mailers.Callee | pysk/utils/mailer.py:224 | `v[:-2]`: the name with "()" after it is the field |
| Mailers.FieldElement | pysk/utils/mailer.py:216-228 | a plain field is an attribute; a field ending in "()" is that functor, KeyError "Found functor field, but no functors!" without functors, KeyError for an unknown functor |
| Mailers.NoField | pysk/utils/mailer.py:232 | a message without fields is one literal |
| Mailers.AlternatingCons | pysk/utils/mailer.py:213-232 | a literal and a field before an alternating list alternate |
| Mailers.ElementsAlternate | pysk/utils/mailer.py:209-232 | a parsed message alternates literals and fields, starting and ending with a literal |
| Mailers.TemplatePair | pysk/utils/mailer.py:214-228 | a literal and a field print as the text then "${name}" |
| Mailers.SplitMatch | pysk/utils/mailer.py:214-229 | the text splits around a match into before, "${", name, "}", after |
| Mailers.TemplateRoundTrip | pysk/utils/mailer.py:209-232 | printing the parsed elements back, fields as "${name}", gives the message |
| Mailers.ElementsStep | pysk/utils/mailer.py:213-230 | one loop pass appends the literal before the match and the field, or fails after the literal |
| Mailers.ElementsAppend | pysk/utils/mailer.py:213-230 | the loop state plus what is left to parse is the whole parse |
| Mailers.ElementsLast | pysk/utils/mailer.py:232 | without a further match the rest is the last literal |
| Mailers.GetMessage | pysk/utils/mailer.py:235-256 | fails exactly when some element fails to render |
| Mailers.RenderTemplate | pysk/utils/mailer.py:245-256 | a recipient whose attributes are "${name}" renders the template itself |
| Mailers.GetMessageSnoc | pysk/utils/mailer.py:241-242 | one more element appends its text, or its error ends the message |
| Mailers.GetMessageAppend | pysk/utils/mailer.py:256 | the message of two element lists is the two messages joined, or the first error |
| Mailers.PlainMessage | pysk/utils/mailer.py:209-256 | a message without fields renders as itself for every recipient |
| Mailers.GetMessagePrefixFails | pysk/utils/mailer.py:241-242 | an error in a prefix is the error of the whole message |
| Mailers.Mailer.constructor | pysk/utils/mailer.py:79-91 | no message yet |
| Mailers.Mailer.SetMessage | pysk/utils/mailer.py:193-232 | the message becomes the parsed elements; on a KeyError it keeps the elements before the failing field |
| Mailers.Mailer.GetMessageFor | pysk/utils/mailer.py:245-256 | the loop joins the rendered elements into the specified message |
| FlightExport.Cells | pysk/tools/export.py:99-131 | a CSV row has the 29 fields of the header, starting with the date and the running number and ending with the database id |
| FlightExport.FlightTypeName | pysk/tools/export.py:30-36 | the accounting name of one of the five known flight types; any other or a missing type raises KeyError with that type |
| FlightExport.FlightTypeNamesDistinct | pysk/tools/export.py:30-36 | distinct types have distinct names, and no type is named like the towflight's "Schlepp" |
| FlightExport.ExportTimeStr | pysk/tools/export.py:246-260 | "" for no time span, otherwise the "HH:MM" text of the span |
| FlightExport.ExportTimeStrReadsBack | pysk/tools/export.py:256-260 | a non-negative span is written as hours and minutes that give it back to the minute, and never as the "" of a missing span |
| FlightExport.FlightRow | pysk/tools/export.py:99-131 | the row exists exactly for a record with departure time, known type and landing time; otherwise TypeError from the date, the KeyError of the type, or TypeError from the duration, in that order; each field of the row is the record's value for that column |
| FlightExport.TowLandingText | pysk/tools/export.py:153 | the formatted towflight landing time, "" when there is none |
| FlightExport.TowDuration | pysk/tools/export.py:154 | a span exactly when departure and towflight landing are known, and departure plus span is the towflight landing |
| FlightExport.TowRowAsWritten | pysk/tools/export.py:134-165 | the towflight row as written: TypeError without departure time, otherwise AttributeError, because Flight has no `towLandingTime` method |
| FlightExport.TowRow | pysk/tools/export.py:134-165 | the corrected towflight row exists exactly with a departure time: towplane and towpilot, type "Schlepp", 0 landings, the towflight mode, launch method "ES", the towflight landing location and the comment "Schleppflug für Flug Nr. " followed by the flight's id |
| FlightExport.FirstFailing | pysk/tools/export.py:99 | every record before the index can be exported and the one at the index cannot |
| FlightExport.ExportComplete | pysk/tools/export.py:98-165 | the corrected export raises nothing exactly when every record can be exported; otherwise it raises the first unexportable record's error; without error it writes one row per record plus one per airtow |
| FlightExport.NumberedCons | pysk/tools/export.py:98-132 | a row numbered n followed by rows numbered from n + 1 are numbered from n |
| FlightExport.ExportNumbering | pysk/tools/export.py:98-165 | the data rows carry consecutive numbers from the starting count, towflight rows included |
| FlightExport.NumberingStep | pysk/tools/export.py:132-165 | one record moves the count on by one, an airtow by two |
| FlightExport.NumberedPair | pysk/tools/export.py:132-165 | a flight row and its towflight row numbered n and n + 1, then rows from n + 2, are numbered from n |
| FlightExport.AirtowRows | pysk/tools/export.py:134-165 | an airtow is followed directly by its towflight row, with type "Schlepp" and the same departure time and location as the flight |
| FlightExport.AirtowAsWrittenFails | pysk/tools/export.py:153-154 | with every record exportable, the corrected export raises nothing, while the export as written raises AttributeError exactly when some record is an airtow |
| FlightExport.ExportStep | pysk/tools/export.py:99-165 | the export of a record list is its first record's rows followed by the export of the rest, or stops at the failing towflight row |
| FlightExport.WriteCsv | pysk/tools/export.py:59-166 | writes the header and then the data rows numbered from 1, and raises exactly the error the export of the records raises; with `asWritten` the towflight row as written, which raises AttributeError, otherwise the corrected row |
| FlightExport.Quoted | pysk/tools/export.py:218 | one quoted text per `--time` argument |
| FlightExport.Clause | pysk/tools/export.py:219-227 | one parenthesised clause of the bounds joined by " AND " when a bound is set, none otherwise |
| FlightExport.ArgOkAnyBounds | pysk/tools/export.py:201-218 | whether an argument is accepted does not depend on the bounds before it; two or more colons raise RuntimeError with the message given |
| FlightExport.ClausesSpec | pysk/tools/export.py:200-227 | the clauses exist exactly when every argument is accepted; at most one clause per argument, exactly one once a bound is set |
| FlightExport.BoundsKept | pysk/tools/export.py:208-213 | a bound once set stays set for the later arguments |
| FlightExport.TimeConstraintsCases | pysk/tools/export.py:195-218 | no arguments give the empty filter; a first argument with two colons raises RuntimeError "Invalid time string '[…]'" |
| FlightExport.BoundsInherited | pysk/tools/export.py:197-229 | after a single date, a range argument with an empty side takes that side from the date's day |
| FlightExport.TwoArguments | pysk/tools/export.py:200-229 | two accepted arguments give their two clauses joined by " OR " |
| FlightExport.ClausesPair | pysk/tools/export.py:200-227 | two accepted arguments give their two clauses, the second from the bounds the first left |
| FlightExport.JoinPair | pysk/tools/export.py:229 | joining two texts puts the separator between them |
| FlightExport.ClausesStep | pysk/tools/export.py:200-227 | the clauses of the arguments are the first argument's clause followed by the clauses of the rest from its bounds |
| FlightExport.ClausesCarry | pysk/tools/export.py:200-227 | accepting one argument moves its clause into the clauses already collected |
| FlightExport.TimeConstraints | pysk/tools/export.py:195-229 | the loop over the arguments computes the filter of all arguments, or the error of the first rejected one |
| Strs.Lower | pysk/db/model/pilot.py:101-102 | `lower()` keeps the length and lowers each ASCII capital, leaving every other character as it is |
| Strs.LStripSet | pysk/tools/import_flights.py:146 | `lstrip(chars)` removes exactly the leading run of characters from the set and leaves a suffix of the text |
| Strs.RStripSet | pysk/tools/import_flights.py:146 | `rstrip(chars)` removes exactly the trailing run of characters from the set and leaves a prefix of the text |
| Strs.Strip | pysk/tools/import_flights.py:181 | the result of `strip()` neither starts nor ends with whitespace |
| Strs.Split | pysk/tools/import_flights.py:175 | `split(sep)` always gives at least one piece |
| Strs.SplitCount | pysk/tools/import_flights.py:175-180 | the number of pieces is one more than the number of separators |
| Strs.SplitPiecesFree | bin/sk.py:113 | no piece contains the separator |
| Strs.SplitJoin | bin/sk.py:113-147 | joining the pieces with the separator gives the text back |
| Strs.SplitNoSep | pysk/tools/stats.py:312-314 | a text without the separator is its own single piece |
| Strs.SplitAfterPiece | pysk/tools/export.py:205 | a piece without the separator, a separator and the rest split into that piece followed by the pieces of the rest |
| Strs.SplitAround | bin/sk.py:113-123 | "a" + sep + "b" with separator-free a and b gives exactly the two pieces a and b |
| Strs.CountAbsent | pysk/tools/export.py:205-207 | a text in which no character is the separator has no separator in it |
| Strs.Words | pysk/db/model/pilot.py:101-102 | `split()` gives only non-empty pieces without whitespace |
| Strs.WordsCons | pysk/db/model/pilot.py:101-102 | a word in front of words still gives words only |
| Strs.FirstWord | pysk/db/model/pilot.py:101 | the first word is a non-empty prefix of the text without whitespace, ended by whitespace or by the end of the text |
| Strs.WordsOfWord | pysk/db/model/pilot.py:101-102 | a single word splits into itself |
| Strs.NatToString | pysk/tools/export.py:162 | the decimal text of a number is non-empty and made of digits |
| Strs.DigitsOfNat | pysk/tools/export.py:162 | the decimal text reads back as the number |
| Strs.Pad2 | pysk/tools/stats.py:363 | `{:02d}` puts a 0 before a single digit and writes larger numbers as they are |
| Strs.StrLessIrreflexive | pysk/db/model/airplane.py:88 | no text is below itself in the order of `<` |
| Strs.StrLessTransitive | pysk/db/model/airplane.py:88 | the order of `<` on texts is transitive |
| Strs.StrLessTotal | pysk/db/model/airplane.py:88 | two different texts are always ordered one way or the other |
| Strs.OptLessStrict | pysk/db/model/pilot.py:82-83 | `<` on optional texts, with None below every text as in Python 2, is a strict total order |
| Strs.PlaceholdersShape | pysk/db/table.py:47 | n "%s" markers separated by commas: 3n - 1 characters, with "%s" at every third position and commas between |
| Strs.WhitespaceIsSpace | pysk/tools/import_flights.py:137 | the characters `strip()` removes are exactly the whitespace characters |
| Strs.StripPlain | pysk/db/model/pilot.py:158-160 | text that neither starts nor ends with whitespace is its own `strip()` |

## Left out

- The MySQL server, cursors, SQL text, DESCRIBE and SHOW TABLES, commits and collation (pysk/db/database.py:39-140): a query is modelled by its effect on an in-memory store, with MySQL's conversion of a quoted 'None' to 0 and of '' times written out.
- `makeRecords`, `copy` and the id lookups that fill a record's participants from the database (pysk/db/database.py:757-775, pysk/tools/export.py:169-178): the export takes its records as a sequence in departure order.
- `strptime` and `strftime` with the tools' date and time formats: times are whole seconds and these two are function parameters, with a parse failure as `None`.
- `int(dt.total_seconds())` in `flightTimeStr`: durations are already whole seconds.
- The `csv` module's tokenizer and the codecs: a row is a sequence of decoded cells.
- Opening input and output files, `mayOverwrite`, argparse, logging, `msg` and the writes to standard error: the text written there is not modelled, and the operator's replies in the conflict dialog are a parameter.
- Python 2 dict iteration order: the conflict handler's warnings come in ascending flag order; the category list in the import's "Unknown category" message follows the written order of `self.aliases`; stored flights come back in ascending id order.
- Regular-expression engine details: the mailer's `${…}` split and the pilot comment fields are written out for the literal patterns the source uses.
- Pilots.MatchAt: the comment-field key is matched as literal text. The source builds the pattern from the key (pysk/db/model/pilot.py:121 and 152), so a key holding metacharacters matches differently there ("a.b" also matches "axb='v'") or raises `re.error` ("("); the model assumes keys hold none.
- Mailers.Mailer.constructor: sets the message to no elements, where the source's constructor (pysk/utils/mailer.py:79-91) leaves `message` unset, so a `getMessage` before `setMessage` raises AttributeError there and gives "" here. The source's callers (pysk/tools/update_users.py:85-92) set the message right after construction.
- Aliasing: flights, pilots, planes, launch methods and records are values. Where the source mutates an object that is shared (a stub copied into a record, a flight inside a record), the model returns the new value, so changes seen through a second reference are not captured.
- Warning masks are sets of bit positions, so `0x0004` is {2}: Python integers have no width, and `|`, `&` and `~` become union, intersection and difference.
- CsvReaders.ParseId: the source keeps the `dbid` cell as text; the model turns it into the number MySQL stores for it, its decimal value for digits and the falsy 0 for any other text. So it does not capture that every non-empty text is truthy where the conflict handler tests the id (pysk/db/conflict_handler.py:239 and 259): "0" and "abc" are truthy ids there but 0 here. It does not capture that MySQL reads " 17" as 17 when the id reaches the store, so that a skip deletes flight 17; the model reads it as 0. Nor does it capture that `_findRecordById` compares the texts, so that "007" and "7" are different flights in the source and the same one here (pysk/db/csv_reader.py:478).
- ConflictHandlers.ConflictHandler.Act uses the corrected `replaceConflicts`; as written, a "replace" reply for a candidate without id raises AttributeError (pysk/db/conflict_handler.py:260).
- ConflictHandlers.ConflictHandler.Resolve uses the corrected `replaceConflicts` through Act; as written, a "replace" reply for a candidate without id raises AttributeError.
- ConflictHandlers.ConflictHandler.HandleConflicts uses the corrected `replaceConflicts` through Resolve; as written, a "replace" reply for a candidate without id raises AttributeError.
- ConflictHandlers.ConflictHandler.Proceed uses the corrected `replaceConflicts` through HandleConflicts; as written, a "replace" reply for a candidate without id raises AttributeError.
- ConflictHandlers.ConflictHandler.Call uses the corrected `replaceConflicts` through Proceed; as written, a "replace" reply for a candidate without id raises AttributeError.
- CsvReaders.CsvReader.ImportRows uses the corrected `getTowflightMode`; as written, a file without the "Modus Schleppflugzeug" column fails every row (pysk/db/csv_reader.py:328).
- CsvReaders.CsvReader.Read uses the corrected `getTowflightMode` through ImportRows; as written, a file without that column imports no record and counts every data row as an error.
- The six deprecated name columns of a flight, `pilot_last_name` to `towpilot_first_name` (pysk/db/model/flight.py:52-57), documented as always `None`: the flight datatype does not have them.
- Flights.SimilarGuard: the RuntimeError message names the flight by its `str` in the source ("… is incomplete"); the model writes "self" or "other" in its place, since the text of `str(flight)` is not modelled.
- `if not rec.flight` in the export and import loops: a `Flight` object is always truthy, so that branch is never taken and is not modelled.
- `_reportMissing`, which prints the entities the import could not resolve: the model states what ends up in `missing`, not the report.
- `createFlights` maps "replace" to REJECT_ON_CONFLICT as the source does (pysk/tools/import_flights.py:274-276), although the name suggests replacement.
- The statistics tool's `printHeader`, `printDailySums` and `printTotals` text, the pilot name lookup in `printEntry` (pysk/tools/stats.py:224 and 237-238) for a truthy pilot id, whose KeyError for an unknown pilot and AttributeError for a found pilot without names the model does not raise (a falsy id, for which `db.pilot` returns None, is modelled), and the `flights()` query: printing is a list of events carrying the counters.
- `Mailer.__call__`, `connect`, `getpass` and SMTP: only the template parser and renderer are modelled. Recipients are maps from attribute name to text.
- FlightExport.InvalidText: the Python list repr in the "Invalid time string" message is written as `['a', 'b']`, without the escaping of quotes inside an argument and without `u''` prefixes.
- Passwords and sha1 (pysk/db/model/user.py), pwgen in `createUsersFromPilots`, `orderTable`, which raises unconditionally, and pysk/tools/set_pilot_email.py, pysk/tools/update_users.py, pysk/tools/help.py, pysk/tools/tool_base.py and pysk/utils/user_query.py are not part of this model.
- The comparison clause of `Flight.similar` (pysk/db/model/flight.py:236-241) reads attributes a flight does not have; the model keeps its guards and uses the database's similar-flight predicate for the comparison.
- No correction of where the source stores three attributes: `copilot_id`, the towflight landing location and the towflight landing time are set on the record object, not on its flight, and the model keeps them there (pysk/db/record.py:145, pysk/db/csv_reader.py:524-525).
- The test runners and the tests that need a database.

## Findings

| source | as written | input that shows it | evidently intended | confidence | as-written member | corrected member |
|---|---|---|---|---|---|---|
| pysk/db/conflict_handler.py:260 | a candidate without an id reads `self.candidate` and `self.conflicts`, which do not exist, and raises AttributeError before anything changes | replying "replace" for an imported flight that has no id | the candidate takes the first conflict's id, is counted as inserted, and the other conflicts are deleted; Act, Resolve, HandleConflicts, Proceed and Call are built on this corrected replace | not executed | ConflictHandlers.ConflictHandler.ReplaceConflictsAsWritten | ConflictHandlers.ConflictHandler.ReplaceConflicts |
| pysk/tools/import_flights.py:160-163 | `category` is unbound before the first `[category]` line, so a data line there raises NameError | an alias file whose first data line comes before any header (FlightImport.MissingCategory) | the "Missing category" IOError the code prepares for that case; FlightImport.AliasTable.ImportAliases reads either way, by its `asWritten` flag | not executed | FlightImport.StepAsWritten | FlightImport.Step |
| pysk/db/model/pilot.py:152 | the setter's pattern has `s*` where the getter's has `\s*`, so a field written as "k = 'a'" is not found and a second field is appended | comments "k = 'a'", then setting k to "b" (Pilots.SetThenGetAsWrittenFails) | the setter finds the field the getter finds and replaces it, so that the new value reads back | not executed | Pilots.SetCommentFieldAsWritten | Pilots.SetCommentField |
| pysk/tools/export.py:153-154 | the towflight row calls `towLandingTime` and `towFlightDuration`, which Flight does not define, so the first airtow raises AttributeError | any exportable airtow record (FlightExport.AirtowAsWrittenFails) | the row shows the towflight's landing time and the span from departure to towflight landing; FlightExport.WriteCsv writes either row, by its `asWritten` flag | not executed | FlightExport.TowRowAsWritten | FlightExport.TowRow |
| pysk/db/csv_reader.py:328 | `.lower()` runs before the emptiness test, so without the optional towflight-mode column every row fails | a CSV file without a "Modus Schleppflugzeug" column (CsvReaders.TowflightModeColumnMissing) | a missing optional column gives no towflight mode, as for the other optional fields; CsvReaders.CsvReader.ImportRows and CsvReaders.CsvReader.Read are built on this corrected getter | not executed | CsvReaders.GetTowflightModeAsWritten | CsvReaders.GetTowflightMode |
| pysk/db/model/pilot.py:101-104 | the name is lowered before transliteration, so a capital umlaut becomes "Ae", "Oe" or "Ue" | first name "Özgür" gives a user name starting with "Oe" (Pilots.UsernameNotLowercase) | a user name that is all lower case, as its docstring promises | not executed | Pilots.UsernameNotLowercase | Pilots.GenerateUsernameLowercase |
