/** The manager that owns the session's player record and talks to the
    table: start-up, the player's own lookup, the two single-attribute
    updates, the save of another record, the two browse scans and the text
    they display. Every cloud call is one synchronous step whose result the
    caller supplies as an `Outcome`. */
module Aws {
  import opened Wrappers
  import opened Numbers
  import opened PlayerRecord
  import opened Dynamo

  /** The three notifications the manager raises for the display. */
  datatype Event = Clear | Append(text: string) | Error(text: string)

  /** A request sent to the service, with the table it names. */
  datatype Request =
    | ScanCall(tableName: string, filter: Filter, projection: seq<string>)
    | UpdateItemCall(tableName: string, key: string, attribute: string, value: AttributeValue)
    | SaveCall(tableName: string, record: PlayerInfo)

  /** `string.IsNullOrEmpty`. */
  predicate IsNullOrEmpty(s: Option<string>) { s.None? || s.value == "" }

  // ---------------------------------------------------------------------
  // Attribute text

  /** `string.Join(",", xs)`. */
  function Join(xs: seq<string>): string
  {
    if xs == [] then "" else if |xs| == 1 then xs[0] else xs[0] + "," + Join(xs[1..])
  }

  /** Cuts a string at every `c`: the inverse of joining. */
  function Split(s: string, c: char): (parts: seq<string>)
    ensures |parts| > 0
  {
    if s == [] then [""]
    else
      var rest := Split(s[1..], c);
      if s[0] == c then [""] + rest else [[s[0]] + rest[0]] + rest[1..]
  }

  lemma {:induction false} SplitAfterPlain(w: string, r: string, c: char)
    requires c !in w
    ensures Split(w + r, c) == [w + Split(r, c)[0]] + Split(r, c)[1..]
  {
    var rs := Split(r, c);
    if w == [] {
      assert w + r == r && w + rs[0] == rs[0];
      assert rs == [rs[0]] + rs[1..];
    } else {
      SplitAfterPlain(w[1..], r, c);
      assert (w + r)[0] == w[0] && (w + r)[1..] == w[1..] + r;
      var rest := Split(w[1..] + r, c);
      assert rest[0] == w[1..] + rs[0] && rest[1..] == rs[1..];
      assert [w[0]] + (w[1..] + rs[0]) == w + rs[0];
    }
  }

  /** Joined set members can be cut apart again when none holds a comma. */
  lemma {:induction false} SplitJoin(xs: seq<string>)
    requires |xs| > 0 && forall i :: 0 <= i < |xs| ==> ',' !in xs[i]
    ensures Split(Join(xs), ',') == xs
  {
    if |xs| == 1 {
      SplitAfterPlain(xs[0], "", ',');
      assert xs[0] + "" == xs[0];
    } else {
      var tail := Join(xs[1..]);
      SplitJoin(xs[1..]);
      var comma := "," + tail;
      assert comma[0] == ',' && comma[1..] == tail;
      assert Split(comma, ',') == [""] + xs[1..];
      SplitAfterPlain(xs[0], comma, ',');
      assert Join(xs) == xs[0] + comma;
      assert xs[0] + "" == xs[0];
      assert [xs[0]] + xs[1..] == xs;
    }
  }

  /** The text of an attribute value: the first kind that is set, in the
      order string, number, string set, number set; set members joined by
      commas; the empty string when none of the four is set. */
  function GetAttributeValue(a: AttributeValue): (r: string)
    ensures a.s.Some? ==> r == a.s.value
    ensures a.s.None? && a.n.Some? ==> r == a.n.value
    ensures a.s.None? && a.n.None? && a.ss.Some? ==> r == Join(a.ss.value)
    ensures a.s.None? && a.n.None? && a.ss.None? && a.ns.Some? ==> r == Join(a.ns.value)
    ensures a.s.None? && a.n.None? && a.ss.None? && a.ns.None? ==> r == ""
  {
    if a.s.Some? then a.s.value
    else if a.n.Some? then a.n.value
    else if a.ss.Some? then Join(a.ss.value)
    else if a.ns.Some? then Join(a.ns.value)
    else ""
  }

  /** A string attribute reads back as the string written. */
  lemma StringTextRoundTrips(t: string)
    ensures GetAttributeValue(Str(t)) == t
  {
  }

  /** A score written as a number attribute reads back and parses to the
      same score. */
  lemma ScoreTextRoundTrips(i: Int32)
    ensures ParseInt(GetAttributeValue(Num(IntToString(i)))) == Some(i)
  {
    ParseIntToString(i);
  }

  /** A string set reads back as its members when none holds a comma. */
  lemma SetTextRoundTrips(xs: seq<string>)
    requires |xs| > 0 && forall k :: 0 <= k < |xs| ==> ',' !in xs[k]
    ensures Split(GetAttributeValue(AttributeValue(None, None, Some(xs), None)), ',') == xs
  {
    SplitJoin(xs);
  }

  // ---------------------------------------------------------------------
  // Displayed text of an item

  /** `Environment.NewLine`, taken as one line feed. */
  const NewLine: string := "\n"

  /** The 48 asterisks that frame every displayed item. */
  const Banner: string := "************************************************"

  function AttributeLine(pair: (string, AttributeValue)): string
  {
    "[" + pair.0 + "]: " + GetAttributeValue(pair.1) + NewLine
  }

  function AttributeLines(item: Item): string
  {
    if item == [] then "" else AttributeLines(item[..|item| - 1]) + AttributeLine(item[|item| - 1])
  }

  /** The text `DisplayItem` appends: banner, line break, one line per
      attribute in order, banner. */
  function ItemText(item: Item): string
  {
    Banner + NewLine + AttributeLines(item) + Banner
  }

  lemma AttributeLinesStep(item: Item, i: nat)
    requires i < |item|
    ensures AttributeLines(item[..i + 1]) == AttributeLines(item[..i]) + AttributeLine(item[i])
  {
    assert item[..i + 1][..i] == item[..i];
  }

  /** Appending the three pieces of a line one after another is appending the line. */
  lemma AppendPieces(before: string, key: string, value: string)
    ensures before + "[" + key + "]: " + value + NewLine == before + ("[" + key + "]: " + value + NewLine)
  {
  }

  /** The `StringBuilder` loop of `DisplayItem`. */
  method BuildItemText(item: Item) returns (text: string)
    ensures text == ItemText(item)
  {
    text := Banner + NewLine;
    for i := 0 to |item|
      invariant text == Banner + NewLine + AttributeLines(item[..i])
    {
      ghost var before := text;
      text := text + "[" + item[i].0 + "]: ";
      text := text + GetAttributeValue(item[i].1);
      text := text + NewLine;
      AppendPieces(before, item[i].0, GetAttributeValue(item[i].1));
      AttributeLinesStep(item, i);
    }
    assert item[..|item|] == item;
    text := text + Banner;
  }

  /** What follows a prefix is what was appended to it. */
  lemma AfterPrefix<T>(a: seq<T>, b: seq<T>)
    ensures (a + b)[|a|..] == b
  {
  }

  lemma Assoc<T>(a: seq<T>, b: seq<T>, c: seq<T>)
    ensures a + (b + c) == (a + b) + c
  {
  }

  lemma Labels()
    ensures "[" + UserIdName + "]: " == "[UserId]: "
    ensures "[" + InitialsName + "]: " == "[Initials]: "
    ensures "[" + HighScoreName + "]: " == "[HighScore]: "
  {
  }

  /** The exact text a browse scan shows for a saved record. */
  lemma DisplayedRecord(p: PlayerInfo)
    requires p.initials.Some?
    ensures ItemText(Project(RowOf(p), ScanNames)) ==
      Banner + NewLine
      + ("[UserId]: " + p.userId + NewLine)
      + ("[Initials]: " + p.initials.value + NewLine)
      + ("[HighScore]: " + IntToString(p.highScore) + NewLine)
      + Banner
  {
    var row := RowOf(p);
    var u, i, h := (UserIdName, row[UserIdName]), (InitialsName, row[InitialsName]), (HighScoreName, row[HighScoreName]);
    assert ScanNames[1..] == [InitialsName, HighScoreName];
    assert [InitialsName, HighScoreName][1..] == [HighScoreName];
    assert [HighScoreName][1..] == [];
    assert Project(row, [HighScoreName]) == [h];
    assert Project(row, [InitialsName, HighScoreName]) == [i] + [h];
    var item := Project(row, ScanNames);
    assert item == [u, i, h];
    assert item[..2] == [u, i] && item[..2][..1] == [u] && [u][..0] == item[..0];
    var lu, li, lh := AttributeLine(u), AttributeLine(i), AttributeLine(h);
    assert AttributeLines([u]) == lu;
    assert AttributeLines(item) == lu + li + lh;
    Labels();
    assert lu == "[UserId]: " + p.userId + NewLine;
    assert li == "[Initials]: " + p.initials.value + NewLine;
    assert lh == "[HighScore]: " + IntToString(p.highScore) + NewLine;
    var head := Banner + NewLine;
    Assoc(head, lu + li, lh);
    Assoc(head, lu, li);
  }

  /** One `Append` per item, in order. */
  function Appends(items: seq<Item>): seq<Event>
  {
    if items == [] then [] else Appends(items[..|items| - 1]) + [Append(ItemText(items[|items| - 1]))]
  }

  lemma {:induction false} AppendsAt(items: seq<Item>)
    ensures |Appends(items)| == |items|
    ensures forall i :: 0 <= i < |items| ==> Appends(items)[i] == Append(ItemText(items[i]))
  {
    if items != [] {
      AppendsAt(items[..|items| - 1]);
    }
  }

  // ---------------------------------------------------------------------
  // The player's own lookup

  /** The callback's loop over the fetched item: `Initials` is copied as
      text, `HighScore` through `int.Parse`, other attributes are skipped.
      A `HighScore` that does not parse throws inside the callback, so the
      loop ends there and later attributes are not copied. */
  function Absorb(p: PlayerInfo, item: Item): (r: PlayerInfo)
    ensures r.userId == p.userId
    decreases |item|
  {
    if item == [] then p
    else if item[0].0 == InitialsName then
      Absorb(p.(initials := Some(GetAttributeValue(item[0].1))), item[1..])
    else if item[0].0 == HighScoreName then
      match ParseInt(GetAttributeValue(item[0].1))
      case Some(v) => Absorb(p.(highScore := v), item[1..])
      case None => p
    else Absorb(p, item[1..])
  }

  /** An item without `Initials` or `HighScore` changes nothing. */
  lemma {:induction false} AbsorbIgnoresOtherAttributes(p: PlayerInfo, item: Item)
    requires forall i :: 0 <= i < |item| ==> item[i].0 != InitialsName && item[i].0 != HighScoreName
    ensures Absorb(p, item) == p
    decreases |item|
  {
    if item != [] {
      AbsorbIgnoresOtherAttributes(p, item[1..]);
    }
  }

  // ---------------------------------------------------------------------
  // The session state and the effect of each call on it

  /** What the manager and the service hold between calls: the player
      record, the table, the notifications raised so far and the requests
      sent so far. */
  datatype Session = Session(player: PlayerInfo, table: Table, events: seq<Event>, requests: seq<Request>)

  function UpdatedMessage(name: string, value: string): string
  {
    "Updated " + name + " to: " + value
  }

  /** `SetPlayerInfo`: scan for the row of the player's key, projected to
      `Initials, HighScore`, and copy the first item found, if any. */
  function FetchStep(st: Session, tableName: string, order: seq<string>): Session
  {
    var id := st.player.userId;
    var items := ScanTable(st.table, order, UserIdEquals(id), FetchNames);
    st.(player := if items == [] then st.player else Absorb(st.player, items[0]),
        requests := st.requests + [ScanCall(tableName, UserIdEquals(id), FetchNames)])
  }

  /** `UpdateInitials`: clear, send `SET Initials = :i` for the player's
      key; on success the service applies it, the record takes the new
      initials and one message is appended; on failure one error. */
  function UpdateInitialsStep(st: Session, tableName: string, initials: string, o: Outcome): Session
  {
    var id := st.player.userId;
    var sent := st.(events := st.events + [Clear],
                    requests := st.requests + [UpdateItemCall(tableName, id, InitialsName, Str(initials))]);
    match o
    case Success =>
      sent.(player := st.player.(initials := Some(initials)),
            table := UpdateField(st.table, id, InitialsName, Str(initials)),
            events := sent.events + [Append(UpdatedMessage(InitialsName, initials))])
    case Failure(msg) => sent.(events := sent.events + [Error(msg)])
  }

  /** `UpdateHighScore`: the score text is sent unchecked as a number
      attribute. On success the service stores it and the callback runs
      `int.Parse`; if that throws, the record keeps its score and nothing is
      appended. */
  function UpdateHighScoreStep(st: Session, tableName: string, score: string, o: Outcome): Session
  {
    var id := st.player.userId;
    var sent := st.(events := st.events + [Clear],
                    requests := st.requests + [UpdateItemCall(tableName, id, HighScoreName, Num(score))]);
    match o
    case Success =>
      var stored := sent.(table := UpdateField(st.table, id, HighScoreName, Num(score)));
      (match ParseInt(score)
       case Some(v) =>
         stored.(player := st.player.(highScore := v),
                 events := stored.events + [Append(UpdatedMessage(HighScoreName, score))])
       case None => stored)
    case Failure(msg) => sent.(events := sent.events + [Error(msg)])
  }

  /** `CreatePlayerInfo`: clear, announce, and save the whole record through
      the object mapper, which writes to the table `PlayerInfo` is mapped to.
      The session's own record is not involved. */
  function CreateStep(st: Session, tableName: string, p: PlayerInfo, o: Outcome): Session
  {
    var sent := st.(events := st.events + [Clear, Append("Creating new PlayerInfo for " + p.userId)],
                    requests := st.requests + [SaveCall(PlayerTable, p)]);
    match o
    case Success =>
      sent.(table := if tableName == PlayerTable then Put(st.table, p) else st.table,
            events := sent.events + [Append("PlayerInfo saved")])
    case Failure(msg) => sent.(events := sent.events + [Error(msg)])
  }

  /** `ScanRequest`: clear, scan with the three-attribute projection, and
      on success append each item's text in the order the service returns
      them; on failure one error. */
  function ScanStep(st: Session, tableName: string, filter: Filter, order: seq<string>, o: Outcome): Session
  {
    var sent := st.(events := st.events + [Clear],
                    requests := st.requests + [ScanCall(tableName, filter, ScanNames)]);
    match o
    case Success => sent.(events := sent.events + Appends(ScanTable(st.table, order, filter, ScanNames)))
    case Failure(msg) => sent.(events := sent.events + [Error(msg)])
  }

  // ---------------------------------------------------------------------
  // Properties of the steps

  /** A lookup that finds no row leaves the record as it was and raises
      no notification at all. */
  lemma FetchMissKeepsRecord(st: Session, tableName: string, order: seq<string>)
    requires WellKeyed(st.table) && IsScanOrder(st.table, order) && st.player.userId !in st.table
    ensures FetchStep(st, tableName, order).player == st.player
    ensures FetchStep(st, tableName, order).events == st.events
  {
    LookupById(st.table, order, st.player.userId, FetchNames);
  }

  /** A first-time player: the record created at start-up keeps the null
      initials and the score 0 when the lookup finds no row. */
  lemma FirstLookupMissKeepsDefaults(id: string, t: Table, events: seq<Event>, requests: seq<Request>,
                                     tableName: string, order: seq<string>)
    requires WellKeyed(t) && IsScanOrder(t, order) && id !in t
    ensures var r := FetchStep(Session(NewPlayer(id), t, events, requests), tableName, order);
      r.player == PlayerInfo(id, None, 0) && r.events == events
  {
    FetchMissKeepsRecord(Session(NewPlayer(id), t, events, requests), tableName, order);
  }

  /** A lookup that finds the row copies only its `Initials` and
      `HighScore`; the key of the record never changes. */
  lemma FetchHitCopiesRow(st: Session, tableName: string, order: seq<string>)
    requires WellKeyed(st.table) && IsScanOrder(st.table, order) && st.player.userId in st.table
    ensures var r := FetchStep(st, tableName, order);
      && r.player == Absorb(st.player, Project(st.table[st.player.userId], FetchNames))
      && r.player.userId == st.player.userId
      && r.table == st.table && r.events == st.events
  {
    LookupById(st.table, order, st.player.userId, FetchNames);
  }

  /** Saving a record under the player's key and fetching it back yields
      that record. */
  lemma SaveThenFetch(st: Session, tableName: string, order: seq<string>, q: PlayerInfo)
    requires WellKeyed(st.table) && q.userId == st.player.userId && q.initials.Some?
    requires IsScanOrder(Put(st.table, q), order)
    ensures FetchStep(st.(table := Put(st.table, q)), tableName, order).player == q
  {
    var t := Put(st.table, q);
    PutKeepsKeys(st.table, q);
    LookupById(t, order, q.userId, FetchNames);
    var row := RowOf(q);
    var item := Project(row, FetchNames);
    assert item == [(InitialsName, Str(q.initials.value)), (HighScoreName, Num(IntToString(q.highScore)))];
    ParseIntToString(q.highScore);
    var afterInitials := st.player.(initials := Some(q.initials.value));
    assert item[1..] == [(HighScoreName, Num(IntToString(q.highScore)))];
    assert Absorb(afterInitials, item[1..]) == afterInitials.(highScore := q.highScore) by {
      assert item[1..][1..] == [];
    }
  }

  /** A failed update leaves the record and the table as they were and
      raises exactly a clear and one error carrying the failure text. */
  lemma UpdateFailureLeavesState(st: Session, tableName: string, value: string, msg: string)
    ensures var r := UpdateInitialsStep(st, tableName, value, Failure(msg));
      r.player == st.player && r.table == st.table && r.events == st.events + [Clear, Error(msg)]
    ensures var r := UpdateHighScoreStep(st, tableName, value, Failure(msg));
      r.player == st.player && r.table == st.table && r.events == st.events + [Clear, Error(msg)]
  {
  }

  /** `UpdateInitials` sends one request that sets only `Initials`, as a
      string, on the player's row; on success only the record's initials
      change and one message follows the clear. */
  lemma UpdateInitialsTouchesOnlyInitials(st: Session, tableName: string, initials: string, o: Outcome)
    ensures var r := UpdateInitialsStep(st, tableName, initials, o);
      && r.requests == st.requests + [UpdateItemCall(tableName, st.player.userId, InitialsName, Str(initials))]
      && r.player.userId == st.player.userId && r.player.highScore == st.player.highScore
      && |r.events| == |st.events| + 2 && r.events[|st.events|] == Clear
      && r.events == st.events +
           (if o.Success? then [Clear, Append("Updated Initials to: " + initials)] else [Clear, Error(o.message)])
      && (o.Success? ==>
            && r.player.initials == Some(initials)
            && r.table == UpdateField(st.table, st.player.userId, InitialsName, Str(initials))
            && r.events[|st.events| + 1] == Append("Updated Initials to: " + initials))
  {
    assert UpdatedMessage(InitialsName, initials) == "Updated Initials to: " + initials;
  }

  /** `UpdateHighScore` sends one request that sets only `HighScore`, as a
      number, on the player's row; on success the record's score becomes
      the parsed text, or stays when the text does not parse. */
  lemma UpdateHighScoreTouchesOnlyHighScore(st: Session, tableName: string, score: string, o: Outcome)
    ensures var r := UpdateHighScoreStep(st, tableName, score, o);
      && r.requests == st.requests + [UpdateItemCall(tableName, st.player.userId, HighScoreName, Num(score))]
      && r.player.userId == st.player.userId && r.player.initials == st.player.initials
      && r.events == st.events +
           (if o.Failure? then [Clear, Error(o.message)]
            else if ParseInt(score).Some? then [Clear, Append("Updated HighScore to: " + score)]
            else [Clear])
      && (o.Success? ==>
            && r.table == UpdateField(st.table, st.player.userId, HighScoreName, Num(score))
            && r.player.highScore == (if ParseInt(score).Some? then ParseInt(score).value else st.player.highScore))
  {
    assert UpdatedMessage(HighScoreName, score) == "Updated HighScore to: " + score;
  }

  /** `CreatePlayerInfo` never touches the record, whatever the outcome;
      a successful save puts the whole record under its own key. */
  lemma CreateLeavesRecord(st: Session, tableName: string, p: PlayerInfo, o: Outcome)
    ensures var r := CreateStep(st, tableName, p, o);
      && r.player == st.player
      && r.requests == st.requests + [SaveCall(PlayerTable, p)]
      && |r.events| == |st.events| + 3
      && r.events[..|st.events|] == st.events
      && r.events[..|st.events| + 2] == st.events + [Clear, Append("Creating new PlayerInfo for " + p.userId)]
      && (o.Success? ==>
            && r.table == (if tableName == PlayerTable then Put(st.table, p) else st.table)
            && r.events[|st.events| + 2] == Append("PlayerInfo saved"))
      && (o.Success? && tableName == PlayerTable ==> r.table[p.userId] == RowOf(p))
      && (o.Failure? ==> r.table == st.table && r.events[|st.events| + 2] == Error(o.message))
  {
  }

  /** A scan never touches the record or the table and sends one request;
      the earlier notifications stay, then a clear, then, on success,
      exactly one append per returned item, in order, each the item's
      display text, or on failure one error. */
  lemma ScanShowsEachItem(st: Session, tableName: string, filter: Filter, order: seq<string>, o: Outcome)
    ensures var r := ScanStep(st, tableName, filter, order, o);
      var items := ScanTable(st.table, order, filter, ScanNames);
      && r.player == st.player && r.table == st.table
      && r.requests == st.requests + [ScanCall(tableName, filter, ScanNames)]
      && r.events == st.events + [Clear] + (if o.Success? then Appends(items) else [Error(o.message)])
      && (o.Success? ==>
            && |r.events| == |st.events| + 1 + |items|
            && r.events[|st.events|] == Clear
            && forall i :: 0 <= i < |items| ==> r.events[|st.events| + 1 + i] == Append(ItemText(items[i])))
  {
    var r := ScanStep(st, tableName, filter, order, o);
    var items := ScanTable(st.table, order, filter, ScanNames);
    var sent := st.events + [Clear];
    match o
    case Success =>
      assert r.events == sent + Appends(items);
      AppendsAt(items);
      forall i | 0 <= i < |items|
        ensures r.events[|st.events| + 1 + i] == Append(ItemText(items[i]))
      {
        assert r.events[|sent| + i] == Appends(items)[i];
      }
    case Failure(m) =>
      assert r.events == sent + [Error(m)];
  }

  /** Every step keeps each row under its own key. */
  lemma StepsKeepKeys(st: Session, tableName: string, value: string, p: PlayerInfo, o: Outcome)
    requires WellKeyed(st.table)
    ensures WellKeyed(UpdateInitialsStep(st, tableName, value, o).table)
    ensures WellKeyed(UpdateHighScoreStep(st, tableName, value, o).table)
    ensures WellKeyed(CreateStep(st, tableName, p, o).table)
  {
    UpdateFieldKeepsKeys(st.table, st.player.userId, InitialsName, Str(value));
    UpdateFieldKeepsKeys(st.table, st.player.userId, HighScoreName, Num(value));
    PutKeepsKeys(st.table, p);
  }

  // ---------------------------------------------------------------------
  // The manager

  class AwsManager {
    /** The three settings given in the editor; `None` is `null`. */
    const identityPoolId: Option<string>
    const region: Option<string>
    const tableName: Option<string>

    /** The session's record; `None` until start-up creates it. */
    var player: Option<PlayerInfo>
    /** The configured table as the service holds it. */
    var table: Table
    /** Notifications raised so far (clear, append, error). */
    var events: seq<Event>
    /** Requests sent to the service so far. */
    var requests: seq<Request>

    predicate Configured()
    {
      !IsNullOrEmpty(identityPoolId) && !IsNullOrEmpty(region) && !IsNullOrEmpty(tableName)
    }

    ghost predicate Valid()
      reads this
    {
      WellKeyed(table) && (player.Some? ==> Configured())
    }

    function State(): Session
      reads this
      requires player.Some?
    {
      Session(player.value, table, events, requests)
    }

    constructor (identityPoolId: Option<string>, region: Option<string>, tableName: Option<string>, table: Table)
      requires WellKeyed(table)
      ensures Valid() && player.None? && this.table == table && events == [] && requests == []
      ensures this.identityPoolId == identityPoolId && this.region == region && this.tableName == tableName
    {
      this.identityPoolId := identityPoolId;
      this.region := region;
      this.tableName := tableName;
      this.table := table;
      player := None;
      events := [];
      requests := [];
    }

    /** Start-up: refuses (C# `OnAwake` throws `ArgumentNullException`) when a
        setting is null or empty, before any record exists; otherwise creates
        the record for the identity the provider gave and looks it up. */
    method OnAwake(identityId: string, order: seq<string>) returns (started: bool)
      requires Valid()
      modifies this
      ensures Valid()
      ensures started == Configured()
      ensures !started ==> player == old(player) && table == old(table) && events == old(events) && requests == old(requests)
      ensures started ==> player.Some?
      ensures started ==> State() == FetchStep(Session(NewPlayer(identityId), old(table), old(events), old(requests)), tableName.value, order)
    {
      if IsNullOrEmpty(identityPoolId) || IsNullOrEmpty(region) || IsNullOrEmpty(tableName) {
        return false;
      }
      player := Some(NewPlayer(identityId));
      SetPlayerInfo(order);
      started := true;
    }

    /** Looks up the player's row and copies its `Initials` and `HighScore`
        into the record. */
    method SetPlayerInfo(order: seq<string>)
      requires Valid() && player.Some?
      modifies this`player, this`requests
      ensures Valid() && player.Some?
      ensures State() == FetchStep(old(State()), tableName.value, order)
    {
      var id := player.value.userId;
      requests := requests + [ScanCall(tableName.value, UserIdEquals(id), FetchNames)];
      var items := ScanTable(table, order, UserIdEquals(id), FetchNames);
      if items != [] {
        var userInfo := items[0];
        ghost var goal := Absorb(player.value, userInfo);
        var i := 0;
        while i < |userInfo|
          invariant 0 <= i <= |userInfo|
          invariant requests == old(requests) + [ScanCall(tableName.value, UserIdEquals(id), FetchNames)]
          invariant player.Some? && player.value.userId == id
          invariant Absorb(player.value, userInfo[i..]) == goal
        {
          assert userInfo[i..][1..] == userInfo[i + 1..];
          var (key, value) := userInfo[i];
          if key == InitialsName {
            player := Some(player.value.(initials := Some(GetAttributeValue(value))));
          } else if key == HighScoreName {
            var score := ParseInt(GetAttributeValue(value));
            if score.None? {
              // int.Parse throws: the callback stops here
              assert player.value == goal;
              break;
            }
            player := Some(player.value.(highScore := score.value));
          }
          i := i + 1;
        }
        assert player.value == goal by {
          if i == |userInfo| {
            assert userInfo[i..] == [];
          }
        }
      }
    }

    method UpdateInitials(initials: string, outcome: Outcome)
      requires Valid() && player.Some?
      modifies this`player, this`table, this`events, this`requests
      ensures Valid() && player.Some?
      ensures State() == UpdateInitialsStep(old(State()), tableName.value, initials, outcome)
    {
      events := events + [Clear];
      var id := player.value.userId;
      requests := requests + [UpdateItemCall(tableName.value, id, InitialsName, Str(initials))];
      match outcome
      case Success =>
        UpdateFieldKeepsKeys(table, id, InitialsName, Str(initials));
        table := UpdateField(table, id, InitialsName, Str(initials));
        player := Some(player.value.(initials := Some(initials)));
        events := events + [Append(UpdatedMessage(InitialsName, initials))];
      case Failure(msg) =>
        events := events + [Error(msg)];
    }

    method UpdateHighScore(score: string, outcome: Outcome)
      requires Valid() && player.Some?
      modifies this`player, this`table, this`events, this`requests
      ensures Valid() && player.Some?
      ensures State() == UpdateHighScoreStep(old(State()), tableName.value, score, outcome)
    {
      events := events + [Clear];
      var id := player.value.userId;
      requests := requests + [UpdateItemCall(tableName.value, id, HighScoreName, Num(score))];
      match outcome
      case Success =>
        UpdateFieldKeepsKeys(table, id, HighScoreName, Num(score));
        table := UpdateField(table, id, HighScoreName, Num(score));
        var parsed := ParseInt(score);
        if parsed.Some? {
          player := Some(player.value.(highScore := parsed.value));
          events := events + [Append(UpdatedMessage(HighScoreName, score))];
        }
      case Failure(msg) =>
        events := events + [Error(msg)];
    }

    method CreatePlayerInfo(p: PlayerInfo, outcome: Outcome)
      requires Valid() && player.Some?
      modifies this`table, this`events, this`requests
      ensures Valid() && player.Some?
      ensures State() == CreateStep(old(State()), tableName.value, p, outcome)
    {
      events := events + [Clear];
      events := events + [Append("Creating new PlayerInfo for " + p.userId)];
      requests := requests + [SaveCall(PlayerTable, p)];
      match outcome
      case Success =>
        if tableName.value == PlayerTable {
          PutKeepsKeys(table, p);
          table := Put(table, p);
        }
        events := events + [Append("PlayerInfo saved")];
      case Failure(msg) =>
        events := events + [Error(msg)];
    }

    /** Appends the display text of one item. */
    method DisplayItem(item: Item)
      modifies this`events
      ensures events == old(events) + [Append(ItemText(item))]
    {
      var text := BuildItemText(item);
      events := events + [Append(text)];
    }

    method ScanRequest(filter: Filter, order: seq<string>, outcome: Outcome)
      requires Valid() && player.Some?
      modifies this`events, this`requests
      ensures Valid() && player.Some?
      ensures State() == ScanStep(old(State()), tableName.value, filter, order, outcome)
    {
      events := events + [Clear];
      requests := requests + [ScanCall(tableName.value, filter, ScanNames)];
      match outcome
      case Success =>
        var items := ScanTable(table, order, filter, ScanNames);
        ghost var before := events;
        for i := 0 to |items|
          invariant events == before + Appends(items[..i])
          invariant requests == old(requests) + [ScanCall(tableName.value, filter, ScanNames)]
        {
          assert items[..i + 1][..i] == items[..i];
          DisplayItem(items[i]);
        }
        assert items[..|items|] == items;
      case Failure(msg) =>
        events := events + [Error(msg)];
    }

    /** Lists every row. */
    method ScanEntries(order: seq<string>, outcome: Outcome)
      requires Valid() && player.Some?
      modifies this`events, this`requests
      ensures Valid() && player.Some?
      ensures State() == ScanStep(old(State()), tableName.value, Everything, order, outcome)
    {
      ScanRequest(Everything, order, outcome);
    }

    /** Lists the rows whose `HighScore` is above zero. */
    method HighScoreBiggerThanZero(order: seq<string>, outcome: Outcome)
      requires Valid() && player.Some?
      modifies this`events, this`requests
      ensures Valid() && player.Some?
      ensures State() == ScanStep(old(State()), tableName.value, HighScoreAbove(0), order, outcome)
    {
      ScanRequest(HighScoreAbove(0), order, outcome);
    }
  }
}
