# DynamoDB for Unity: player-record synchronisation

This project models the part of the game that keeps the session's player
record in step with a DynamoDB table, written in Dafny.

A `PlayerInfo` record has three fields: `UserId` (the hash key), `Initials`
and `HighScore`. `AwsManager` owns the session's record and does the
following:

- at start-up, it checks its three settings and creates the record for the
  signed-in identity;
- it looks the record's row up with a filter scan and copies `Initials` and
  `HighScore` into the record;
- it sends one single-attribute `UpdateItem` for a changed field;
- it saves another record as a whole through the object mapper;
- it lists the table, either whole or only the rows with a positive score;
- it raises three notifications for the display: clear, append and error.

`UiManager` holds the update/create panel. It has three inputs, a submit
button whose enabled state follows the inputs, and the rule that reconciles
a submitted form with the record. It also holds the shared display text and
its colour, which react to the notifications.

Modules, one file each:

- `Wrappers` (`wrappers.dfy`): `Option` and the `Outcome` of a cloud call
  (`Success` or `Failure(message)`).
- `Numbers` (`numbers.dfy`): the C# `int` as `Int32`, `int.Parse` as the
  partial `ParseInt`, and `Int32.ToString()` as `IntToString`.
- `PlayerRecord` (`player_record.dfy`): the `PlayerInfo` datatype. A null
  `Initials` is `None`.
- `Dynamo` (`dynamo.dfy`): the table as `map<string, Row>` keyed by
  `UserId`, attribute values with their four nullable kinds, and filter
  scans with projections. `UpdateField` models `SET` of one attribute and
  `Put` models the mapper's save.
- `Aws` (`aws_manager.dfy`): the `AwsManager` class. Its fields are the
  record, the table, the notification log and the request log. Each method
  is proved equal to a pure step function on a `Session` value:
  `FetchStep`, `UpdateInitialsStep`, `UpdateHighScoreStep`, `CreateStep`,
  `ScanStep`. The properties are lemmas on those functions.
- `Ui` (`ui_manager.dfy`): the `UiManager` class with plain fields for the
  widgets. The pure rules are:
  - `Toggled`: the panel's show and hide;
  - `SubmitEnabled`: when submit can be pressed;
  - `SubmitPlan`: the calls a submit makes;
  - `Perform`: those calls run on the manager;
  - `React` and `Replay`: the display's reaction to notifications.

Every cloud call is one synchronous step. The caller supplies its
`Outcome`, together with the order in which the service enumerates the
table.

Behaviour the model makes explicit:

- `UpdateHighScore` sends the score text unchecked. `int.Parse` runs only in
  the success callback. The text goes out as a number attribute, so whether
  the service accepts it is left to the caller's `Outcome`. When a number
  the service accepts does not parse as an `int` (such as "1.5" or
  "3000000000"), the table is updated, the record keeps its old score and
  nothing is appended. A submit never takes this path, because it passes
  only a score text that `int.Parse` has accepted
  (`Ui.SubmitScoresParse`); it needs some other caller.
- A same-key submit can send the initials update before `int.Parse` fails on
  the score input. The submit then stops, and the panel stays open.
- A record never filled from the table has null initials. The input field
  shows them as empty text, and the submit-enable rule then disables the
  button (`Ui.SubmitEnabledAfterToggle`). If a submit of that form runs
  anyway, before the rule has been applied, it sends an update setting
  `Initials` to "" (`Ui.UnfilledRecordResendsInitials`).
- `CreatePlayerInfo` saves through the object mapper. The mapper writes to
  the table named by the class attribute, `DynamoDBForUnity`
  (`PlayerRecord.PlayerTable`), not to the configured `TableName`. The
  modelled table therefore changes on a save only when the two names agree.

## Model

| member | source | states |
|---|---|---|
| PlayerRecord.NewPlayer | Assets/Scripts/DynamoDB/AwsManager.cs:52-55 | defined by its body; properties in `Aws.FirstLookupMissKeepsDefaults` and `Aws.AwsManager.OnAwake` |
| Numbers.IntToString | Assets/Scripts/Ui/UiManager.cs:60 | a printed score is non-empty, has no blank at either end and no leading `+` |
| Numbers.ParseInt | Assets/Scripts/DynamoDB/AwsManager.cs:151 | `int.Parse` gives a value when the trimmed text is a signed decimal numeral within the Int32 range; otherwise it throws (`None`) |
| Numbers.ParseIntToString | Assets/Scripts/Ui/UiManager.cs:60 | parsing a printed score gives back the same score, for every Int32 |
| Numbers.ParseIsLenient | Assets/Scripts/Ui/UiManager.cs:91 | sign, leading zeros and blanks are accepted (" +007 " and "7" both parse to 7); "" and "seven" throw; 2147483648 overflows |
| Dynamo.NumberOf | Assets/Scripts/DynamoDB/AwsManager.cs:204-205 | only a number attribute compares against the number operand `:val` of the filter |
| Dynamo.Matches | Assets/Scripts/DynamoDB/AwsManager.cs:73-74 | defined by its body (the `UserId = :id` and `HighScore > :val` filters); properties in `Dynamo.ScanByIdFindsOwnRow` and `Dynamo.PositiveScanExact` |
| Dynamo.ScanTable | Assets/Scripts/DynamoDB/AwsManager.cs:216-224 | defined by its body; properties in `Dynamo.ScanMembers`, `Dynamo.ScanEverything`, `Dynamo.ScanEntriesShowsEveryRow`, `Dynamo.PositiveScanExact` and `Dynamo.LookupById` |
| Dynamo.Project | Assets/Scripts/DynamoDB/AwsManager.cs:191 | a projected item holds exactly the named attributes the row has, with the row's values |
| Dynamo.UpdateField | Assets/Scripts/DynamoDB/AwsManager.cs:107-114 | `SET` of one attribute on a key gives that row the new value, creating the row if the key is missing |
| Dynamo.RowOf | Assets/Scripts/DynamoDB/PlayerInfo.cs:7-15 | a saved row holds the key as a string, the score as a number, and the initials only when they are not null |
| Dynamo.Put | Assets/Scripts/DynamoDB/AwsManager.cs:170 | a save replaces the row under the record's key and leaves every other row as it was |
| Dynamo.UpdateFieldIsolated | Assets/Scripts/DynamoDB/AwsManager.cs:107-114 | a single-attribute update leaves every other row, and every other attribute of its own row, unchanged |
| Dynamo.UpdateFieldKeepsKeys | Assets/Scripts/DynamoDB/AwsManager.cs:110 | an update of a non-key attribute keeps each row under its own `UserId` |
| Dynamo.PutKeepsKeys | Assets/Scripts/DynamoDB/PlayerInfo.cs:9-10 | a save keeps each row under its own `UserId` hash key |
| Dynamo.ScanMembers | Assets/Scripts/DynamoDB/AwsManager.cs:216-224 | an item is in a scan's result if and only if some enumerated row passes the filter and projects to it |
| Dynamo.ScanEverything | Assets/Scripts/DynamoDB/AwsManager.cs:186-194 | an unfiltered scan yields exactly one projected item per enumerated row, in enumeration order |
| Dynamo.ScanEntriesShowsEveryRow | Assets/Scripts/DynamoDB/AwsManager.cs:186-194 | every row of the table appears in a full scan |
| Dynamo.PositiveScanExact | Assets/Scripts/DynamoDB/AwsManager.cs:199-210 | the positive-score scan yields an item if and only if it is the projection of a row whose `HighScore` is a number above 0 |
| Dynamo.ScanByIdFindsOwnRow | Assets/Scripts/DynamoDB/AwsManager.cs:70-76 | a `UserId = :id` scan over distinct keys yields the row of that key alone, or nothing when the key is absent |
| Dynamo.LookupById | Assets/Scripts/DynamoDB/AwsManager.cs:70-76 | the player lookup over a whole-table scan yields exactly the own row when it exists, and no item otherwise |
| Aws.GetAttributeValue | Assets/Scripts/DynamoDB/AwsManager.cs:259-273 | the text is the first set kind in the priority S, N, SS, NS; sets are joined with commas; the text is "" when none is set |
| Aws.SplitJoin | Assets/Scripts/DynamoDB/AwsManager.cs:267-270 | joined set members without commas can be cut apart again into the same members |
| Aws.Join | Assets/Scripts/DynamoDB/AwsManager.cs:268-270 | defined by its body (`string.Join(",", ...)`); properties in `Aws.SplitJoin` and `Aws.SetTextRoundTrips` |
| Aws.StringTextRoundTrips | Assets/Scripts/DynamoDB/AwsManager.cs:263-264 | a string attribute reads back as the string written |
| Aws.ScoreTextRoundTrips | Assets/Scripts/DynamoDB/AwsManager.cs:265-266 | a printed score stored as a number attribute reads back and parses to the same score |
| Aws.SetTextRoundTrips | Assets/Scripts/DynamoDB/AwsManager.cs:267-268 | a string set whose members hold no comma reads back as its members |
| Aws.ItemText | Assets/Scripts/DynamoDB/AwsManager.cs:239-251 | defined by its body; properties in `Aws.BuildItemText`, `Aws.DisplayedRecord` and `Aws.AppendsAt` |
| Aws.BuildItemText | Assets/Scripts/DynamoDB/AwsManager.cs:239-251 | the `StringBuilder` loop produces the banner, a line break, one `[key]: value` line per attribute in order, and the banner |
| Aws.DisplayedRecord | Assets/Scripts/DynamoDB/AwsManager.cs:237-252 | a saved record is listed as the banner, then `[UserId]`, `[Initials]` and `[HighScore]` lines with its values, then the banner |
| Aws.AppendsAt | Assets/Scripts/DynamoDB/AwsManager.cs:223-224 | a run of displayed items raises one append per item, the i-th being the i-th item's text |
| Aws.Absorb | Assets/Scripts/DynamoDB/AwsManager.cs:83-94 | copying a fetched item into the record never changes its `UserId` |
| Aws.AbsorbIgnoresOtherAttributes | Assets/Scripts/DynamoDB/AwsManager.cs:83-94 | attributes other than `Initials` and `HighScore` are skipped |
| Aws.FetchStep | Assets/Scripts/DynamoDB/AwsManager.cs:68-97 | defined by its body; properties in `Aws.FetchMissKeepsRecord`, `Aws.FirstLookupMissKeepsDefaults`, `Aws.FetchHitCopiesRow` and `Aws.SaveThenFetch` |
| Aws.UpdateInitialsStep | Assets/Scripts/DynamoDB/AwsManager.cs:103-128 | defined by its body; properties in `Aws.UpdateInitialsTouchesOnlyInitials`, `Aws.UpdateFailureLeavesState` and `Ui.UpdateInitialsIsShown` |
| Aws.UpdateHighScoreStep | Assets/Scripts/DynamoDB/AwsManager.cs:134-159 | defined by its body; properties in `Aws.UpdateHighScoreTouchesOnlyHighScore`, `Aws.UpdateFailureLeavesState` and `Ui.UpdateHighScoreIsShown` |
| Aws.CreateStep | Assets/Scripts/DynamoDB/AwsManager.cs:165-181 | defined by its body; properties in `Aws.CreateLeavesRecord` and `Ui.CreateIsShown` |
| Aws.ScanStep | Assets/Scripts/DynamoDB/AwsManager.cs:216-231 | defined by its body; properties in `Aws.ScanShowsEachItem` and `Ui.ScanIsShown` |
| Aws.FetchMissKeepsRecord | Assets/Scripts/DynamoDB/AwsManager.cs:80-81 | a lookup that finds no row leaves the record unchanged and raises no notification |
| Aws.FirstLookupMissKeepsDefaults | Assets/Scripts/DynamoDB/AwsManager.cs:52-57 | a first-time player whose lookup finds no row keeps the null `Initials` and the score 0, and no notification is raised |
| Aws.FetchHitCopiesRow | Assets/Scripts/DynamoDB/AwsManager.cs:80-95 | a lookup that finds the row copies only that row's `Initials` and `HighScore`; key, table and notifications stay unchanged |
| Aws.SaveThenFetch | Assets/Scripts/DynamoDB/AwsManager.cs:68-97 | after a save of a record with the player's key and initials, the lookup yields exactly that record |
| Aws.UpdateFailureLeavesState | Assets/Scripts/DynamoDB/AwsManager.cs:116-158 | a failed update of either field leaves the record and the table unchanged and raises a clear followed by exactly one error with the failure text |
| Aws.UpdateInitialsTouchesOnlyInitials | Assets/Scripts/DynamoDB/AwsManager.cs:103-128 | one request setting only `Initials`, as a string, on the player's key; the earlier notifications stay, then exactly a clear and either "Updated Initials to: ..." on success or the error on failure; on success the record takes the initials and the table the update, while key and score stay |
| Aws.UpdateHighScoreTouchesOnlyHighScore | Assets/Scripts/DynamoDB/AwsManager.cs:134-159 | one request setting only `HighScore`, as a number, on the player's key; the earlier notifications stay and exactly a clear follows, then "Updated HighScore to: ..." on success when the text parses, nothing more when it does not, or the error on failure; on success the table stores it and the score becomes the parsed text, or stays when it does not parse; key and initials stay |
| Aws.CreateLeavesRecord | Assets/Scripts/DynamoDB/AwsManager.cs:165-181 | a save never changes the session record; the earlier notifications stay, then a clear and the announcement; a success puts the whole record under its key, leaving every other row, and leaves the configured table unchanged when it is not the mapper's table, then appends "PlayerInfo saved"; a failure leaves the table unchanged and ends with the error |
| Aws.ScanShowsEachItem | Assets/Scripts/DynamoDB/AwsManager.cs:216-231 | a scan, whatever its outcome, leaves the record and the table and sends one scan request; the earlier notifications stay, then a clear, then exactly one append per returned item, in order, each with the item's display text, on success, or one error on failure |
| Aws.StepsKeepKeys | Assets/Scripts/DynamoDB/AwsManager.cs:103-181 | both updates and the save keep each row under its own key |
| Aws.AwsManager.constructor | Assets/Scripts/DynamoDB/AwsManager.cs:19-23 | a manager starts with its settings, no record, and empty notification and request logs |
| Aws.AwsManager.OnAwake | Assets/Scripts/DynamoDB/AwsManager.cs:36-63 | start-up proceeds if and only if all three settings are non-empty; a refusal happens before any record exists and changes nothing; otherwise it creates the record for the identity and then looks it up |
| Aws.AwsManager.SetPlayerInfo | Assets/Scripts/DynamoDB/AwsManager.cs:68-97 | the loop over the first fetched item leaves the record equal to the lookup step; an unparsable score stops the copy |
| Aws.AwsManager.UpdateInitials | Assets/Scripts/DynamoDB/AwsManager.cs:103-128 | the new session state is the initials-update step of the old one |
| Aws.AwsManager.UpdateHighScore | Assets/Scripts/DynamoDB/AwsManager.cs:134-159 | the new session state is the score-update step of the old one |
| Aws.AwsManager.CreatePlayerInfo | Assets/Scripts/DynamoDB/AwsManager.cs:165-181 | the new session state is the save step of the old one; the record field is not in its frame |
| Aws.AwsManager.DisplayItem | Assets/Scripts/DynamoDB/AwsManager.cs:237-252 | exactly one append, carrying the item's display text |
| Aws.AwsManager.ScanRequest | Assets/Scripts/DynamoDB/AwsManager.cs:216-231 | the per-item loop leaves the session equal to the scan step; the record and the table are not in its frame |
| Aws.AwsManager.ScanEntries | Assets/Scripts/DynamoDB/AwsManager.cs:186-194 | the scan step with no filter and the three-attribute projection |
| Aws.AwsManager.HighScoreBiggerThanZero | Assets/Scripts/DynamoDB/AwsManager.cs:199-210 | the scan step with the `HighScore > 0` filter and the three-attribute projection |
| Ui.ErrorIsShownAlone | Assets/Scripts/Ui/UiManager.cs:122-127 | whatever came before, a run of notifications that ends in an error leaves exactly the error text, in red |
| Ui.AppendsShowItems | Assets/Scripts/Ui/UiManager.cs:144-148 | appends keep the old text as a prefix and add each item's text and a line break, in order, in white |
| Ui.ScanIsShown | Assets/Scripts/DynamoDB/AwsManager.cs:216-231 | after a successful scan the display holds exactly the returned items' texts, each followed by a line break |
| Ui.UpdateInitialsIsShown | Assets/Scripts/DynamoDB/AwsManager.cs:103-128 | after an initials update the display shows only the confirmation line in white, or only the failure text in red |
| Ui.UpdateHighScoreIsShown | Assets/Scripts/DynamoDB/AwsManager.cs:134-159 | after a score update the display shows only the confirmation line in white, or only the failure text in red; when the stored text does not parse it stays cleared |
| Ui.CreateIsShown | Assets/Scripts/DynamoDB/AwsManager.cs:165-181 | after a save the display shows the announcement and "PlayerInfo saved" in white, or only the failure text in red |
| Ui.InputText | Assets/Scripts/Ui/UiManager.cs:59 | defined by its body (Unity stores a null text as ""); properties in `Ui.SubmitEnabledAfterToggle` and `Ui.UnfilledRecordResendsInitials` |
| Ui.SubmitEnabled | Assets/Scripts/Ui/UiManager.cs:101-111 | defined by its body; properties in `Ui.SubmitEnabledAfterToggle` and `Ui.UiManager.OnInputUpdateCreateChange` |
| Ui.SubmitPlan | Assets/Scripts/Ui/UiManager.cs:75-93 | defined by its body; properties in `Ui.SubmitOtherIdSavesForm`, `Ui.SubmitSameIdUpdatesChangedFields`, `Ui.SubmitUnchangedIsNoop`, `Ui.InitialsSentBeforeBadScore`, `Ui.ReopenedFormIsNoop` and `Ui.UnfilledRecordResendsInitials` |
| Ui.Perform | Assets/Scripts/Ui/UiManager.cs:84-92 | defined by its body; properties in `Ui.PerformSendsOneRequestPerCall`, `Ui.SubmitOtherIdKeepsRecord`, `Ui.ChangeInitialsScenario` and `Ui.UiManager.OnSubmitUpdateCreate` |
| Ui.React | Assets/Scripts/Ui/UiManager.cs:116-148 | defined by its body; properties in `Ui.UiManager.OnAwsEvent` and `Ui.ErrorIsShownAlone` |
| Ui.Replay | Assets/Scripts/Ui/UiManager.cs:43-45 | defined by its body; properties in `Ui.ErrorIsShownAlone`, `Ui.AppendsShowItems`, `Ui.ScanIsShown`, `Ui.UpdateInitialsIsShown`, `Ui.UpdateHighScoreIsShown` and `Ui.CreateIsShown` |
| Ui.Toggled | Assets/Scripts/Ui/UiManager.cs:52-68 | the panel flips; opening it fills the inputs with the record's key, initials and printed score; closing it empties all three |
| Ui.SubmitEnabledAfterToggle | Assets/Scripts/Ui/UiManager.cs:101-111 | a closed panel never enables submit; an opened one enables it if and only if the record's key and initials are non-empty |
| Ui.StepOf | Assets/Scripts/Ui/UiManager.cs:84-92 | each call on the manager keeps the record's key and sends exactly its one request |
| Ui.PerformSendsOneRequestPerCall | Assets/Scripts/Ui/UiManager.cs:73-96 | a run of calls sends exactly one request per call, in order, and never changes the record's key |
| Ui.SubmitOtherIdSavesForm | Assets/Scripts/Ui/UiManager.cs:75-85 | another key makes exactly one save of the whole form with the parsed score and no update; a score that does not parse makes no call and stops the submit |
| Ui.SubmitSameIdUpdatesChangedFields | Assets/Scripts/Ui/UiManager.cs:86-93 | the record's key updates the initials if and only if they differ, and the score if and only if its parsed value differs; initials come first, each at most once, and nothing is saved whole |
| Ui.SubmitScoresParse | Assets/Scripts/Ui/UiManager.cs:91-92 | every score update a submit plans is the score input, and that text parses as an `int` |
| Ui.SubmitUnchangedIsNoop | Assets/Scripts/Ui/UiManager.cs:86-93 | a form equal to the record makes no store call |
| Ui.InitialsSentBeforeBadScore | Assets/Scripts/Ui/UiManager.cs:88-91 | changed initials are sent before an unparsable score stops the submit |
| Ui.ReopenedFormIsNoop | Assets/Scripts/Ui/UiManager.cs:52-93 | opening the panel on a record with initials and submitting it untouched makes no call |
| Ui.UnfilledRecordResendsInitials | Assets/Scripts/Ui/UiManager.cs:52-93 | with null initials, the untouched form sends one update setting the initials to "" |
| Ui.SubmitOtherIdKeepsRecord | Assets/Scripts/Ui/UiManager.cs:75-85 | a form with another key leaves the session record unchanged, whatever the outcome |
| Ui.ChangeInitialsScenario | Assets/Scripts/Ui/UiManager.cs:86-93 | with record {A, AB, 10} and form {A, CD, 10}, exactly one update is sent, setting the initials to CD, and the record becomes {A, CD, 10} |
| Ui.UiManager.Start | Assets/Scripts/Ui/UiManager.cs:30-46 | needs the record to exist; hides the panel and labels the key; the inputs, the button and the display keep the values the scene gave them |
| Ui.UiManager.OnButtonUpdateCreate | Assets/Scripts/Ui/UiManager.cs:52-68 | the panel state becomes `Toggled` of the old one for the current record |
| Ui.UiManager.OnSubmitUpdateCreate | Assets/Scripts/Ui/UiManager.cs:73-96 | the manager's new state is the planned calls run on the old one; the submit completes if and only if the score parses; the panel is toggled exactly when it completes |
| Ui.UiManager.OnInputUpdateCreateChange | Assets/Scripts/Ui/UiManager.cs:101-111 | submit is interactable if and only if all three inputs are non-empty |
| Ui.UiManager.ClearDisplay | Assets/Scripts/Ui/UiManager.cs:116 | the text becomes empty |
| Ui.UiManager.DisplayError | Assets/Scripts/Ui/UiManager.cs:122-127 | the text is exactly the message, in red |
| Ui.UiManager.DisplayMessage | Assets/Scripts/Ui/UiManager.cs:133-138 | the text is exactly the message, in white |
| Ui.UiManager.AppendToDisplay | Assets/Scripts/Ui/UiManager.cs:144-148 | the text is the old text, the message and a line break, in white; the old text stays a prefix |
| Ui.UiManager.OnAwsEvent | Assets/Scripts/Ui/UiManager.cs:43-45 | each notification runs the display method subscribed to it, which gives `React` of the old display |

## Left out

- Cognito credentials, the DynamoDB client and context, `UnityInitializer` and
  the HTTP client setting are SDK plumbing. The identity is a parameter of
  `OnAwake`.
- The `_credentials != null` test of `OnAwake` and its else-throw are left
  out, because a constructor never yields null, so the else-throw cannot be
  reached.
- Callbacks and threads are not modelled. Each cloud call is one synchronous
  step with a caller-supplied `Outcome`, so the panel toggle after a submit
  sees the effects of the callbacks. In the game they may arrive later.
- Exception texts are not modelled. A failure's text is the opaque string in
  `Failure(message)`.
- `Environment.NewLine` is taken as "\n".
- Delivery of notifications to the display is the separate method
  `Ui.UiManager.OnAwsEvent` and the function `Replay`. It is not wired into
  the manager's methods, because events are C# delegates subscribed in
  `Start`.
- The `SetPlayerInfo` error path is left out: the callback never checks the
  result's exception, so the model gives no behaviour for a failed lookup.
- Expression strings are not parsed. Filters are the datatype `Filter`,
  projections are name lists, and `UpdateExpression` is `UpdateField`.
- The order in which the service enumerates the table is a parameter.
- The attribute order of a returned item is taken to be the projection
  order.
- A scan reads a single page; the code never asks for the next one. The
  page is modelled by the `order` parameter. The lemmas that assume
  `Dynamo.IsScanOrder` (`Dynamo.LookupById`, `Dynamo.ScanEntriesShowsEveryRow`,
  `Dynamo.PositiveScanExact`, `Aws.FetchMissKeepsRecord`,
  `Aws.FirstLookupMissKeepsDefaults`, `Aws.FetchHitCopiesRow`,
  `Aws.SaveThenFetch`) hold only when that one page, at most 1 MB, covers
  the whole table. On a larger table the start-up lookup can miss an
  existing row; the methods accept such a partial `order`.
- Ui.UiManager.OnSubmitUpdateCreate: with two updates in one submit, the
  model pairs each clear with its own result (clear, result, clear,
  result), so the display keeps only the last confirmation. In the game both
  clears are raised inside the submit before either callback runs. Both
  results then follow, and the display keeps both confirmation lines.
- Dynamo.UpdateField: a number value is stored exactly as the text sent.
  The service normalises numbers, dropping leading and trailing zeros, so
  after `UpdateHighScore("007")` a listing shows `7` in the game but `007`
  in the model. `Aws.UpdateHighScoreTouchesOnlyHighScore` states the
  stored value as the text sent.
- Dynamo.NumberOf: only integer numerals compare against the `:val`
  operand. A decimal or exponent number stored in `HighScore` is not
  matched by the positive-score filter.
- Dynamo.Put: the mapper's save is modelled as a whole-row replace, and a
  null `Initials` is simply not written. The replace drops attributes the
  mapper does not map, which the SDK's save may keep, since it writes only
  the mapped properties. Version checks are left out.
- Aws.GetAttributeValue: a kind that is not set is taken to be null. In SDK
  versions where `SS` and `NS` default to empty lists, the `SS` test of
  `GetAttributeValue` catches every value that is neither a string nor a
  number, and a number set then shows as "" rather than its members. The
  model does not capture that.
- Numbers.ParseInt: culture-specific signs and digits, and
  `Trim`-equivalent characters beyond U+0009 to U+000D and U+0020, are not
  modelled. Nor are trailing NUL characters, which .NET accepts after the
  digits (`int.Parse("12\0")` is 12) and the model refuses.
- The `Singleton<T>` base class, `Awake`'s button listeners and the
  `TMP_Text`/`InputField`/`Button` objects are replaced by plain fields.
  The start checks that those objects be non-null are reduced to "the
  record exists". The initial texts, button state and display come from
  the scene and are parameters of `Ui.UiManager.Start`.
- `ScanEntries` and `HighScoreBiggerThanZero` are connected to their
  buttons in `Awake`, which is not modelled.
