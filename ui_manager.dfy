/** The screen: the update/create panel with its three inputs and submit
    button, the rule that reconciles a submitted form with the session's
    record, and the shared display text that the manager's notifications
    write to. */
module Ui {
  import opened Wrappers
  import opened Numbers
  import opened PlayerRecord
  import opened Dynamo
  import opened Aws

  datatype Color = Red | White

  /** The shared display: its text and colour. */
  datatype Screen = Screen(text: string, color: Color)

  /** The update/create panel: whether it is shown, and its three inputs. */
  datatype Panel = Panel(active: bool, id: string, initials: string, highScore: string)

  // ---------------------------------------------------------------------
  // The display

  /** How the display reacts to each notification it subscribes to:
      a clear empties the text, an append adds a line in white, an error
      replaces the text in red. */
  function React(d: Screen, e: Event): Screen
  {
    match e
    case Clear => d.(text := "")
    case Append(s) => Screen(d.text + s + NewLine, White)
    case Error(s) => Screen(s, Red)
  }

  /** The display after a run of notifications, in order. */
  function Replay(d: Screen, es: seq<Event>): Screen
    decreases |es|
  {
    if es == [] then d else Replay(React(d, es[0]), es[1..])
  }

  lemma {:induction false} ReplayConcat(d: Screen, a: seq<Event>, b: seq<Event>)
    ensures Replay(d, a + b) == Replay(Replay(d, a), b)
    decreases |a|
  {
    if a == [] {
      assert a + b == b;
    } else {
      assert (a + b)[0] == a[0] && (a + b)[1..] == a[1..] + b;
      assert Replay(d, a + b) == Replay(React(d, a[0]), a[1..] + b);
      ReplayConcat(React(d, a[0]), a[1..], b);
    }
  }

  lemma ReplayOne(d: Screen, e: Event)
    ensures Replay(d, [e]) == React(d, e)
  {
    assert [e][1..] == [];
  }

  /** Whatever came before, a run that ends in an error shows exactly the
      error text, in red. */
  lemma ErrorIsShownAlone(d: Screen, es: seq<Event>, message: string)
    ensures Replay(d, es + [Error(message)]) == Screen(message, Red)
  {
    ReplayConcat(d, es, [Error(message)]);
  }

  /** The text of a run of appends: each item's text and a line break. */
  function ShownItems(items: seq<Item>): string
  {
    if items == [] then "" else ShownItems(items[..|items| - 1]) + ItemText(items[|items| - 1]) + NewLine
  }

  lemma {:induction false} AppendsShowItems(d: Screen, items: seq<Item>)
    ensures Replay(d, Appends(items)) ==
      if items == [] then d else Screen(d.text + ShownItems(items), White)
    decreases |items|
  {
    if items != [] {
      var init := items[..|items| - 1];
      var t := ItemText(items[|items| - 1]);
      assert Appends(items) == Appends(init) + [Append(t)];
      assert ShownItems(items) == ShownItems(init) + t + NewLine;
      AppendsShowItems(d, init);
      ReplayConcat(d, Appends(init), [Append(t)]);
      var mid := Replay(d, Appends(init));
      assert Replay(mid, [Append(t)]) == React(mid, Append(t)) by {
        assert [Append(t)][1..] == [];
      }
      if init == [] {
        assert ShownItems(init) == "";
        assert ShownItems(items) == t + NewLine;
        Assoc(d.text, t, NewLine);
      } else {
        Assoc(d.text, ShownItems(init), t);
        Assoc(d.text, ShownItems(init) + t, NewLine);
      }
    }
  }

  /** After a successful scan the display holds exactly the returned
      items' texts, each followed by a line break, in order. */
  lemma ScanIsShown(d: Screen, st: Session, tableName: string, filter: Filter, order: seq<string>)
    ensures var r := ScanStep(st, tableName, filter, order, Success);
      var items := ScanTable(st.table, order, filter, ScanNames);
      Replay(d, r.events[|st.events|..]) == if items == [] then Screen("", d.color) else Screen(ShownItems(items), White)
  {
    var r := ScanStep(st, tableName, filter, order, Success);
    var items := ScanTable(st.table, order, filter, ScanNames);
    assert r.events[|st.events|..] == [Clear] + Appends(items);
    ReplayConcat(d, [Clear], Appends(items));
    AppendsShowItems(d.(text := ""), items);
    assert "" + ShownItems(items) == ShownItems(items);
  }

  /** After `UpdateInitials` the display shows the one confirmation line
      in white, or the failure text in red. */
  lemma UpdateInitialsIsShown(d: Screen, st: Session, tableName: string, initials: string, o: Outcome)
    ensures var r := UpdateInitialsStep(st, tableName, initials, o);
      Replay(d, r.events[|st.events|..]) ==
        match o
        case Success => Screen("Updated Initials to: " + initials + NewLine, White)
        case Failure(m) => Screen(m, Red)
  {
    var r := UpdateInitialsStep(st, tableName, initials, o);
    match o
    case Success =>
      var msg := UpdatedMessage(InitialsName, initials);
      assert r.events[|st.events|..] == [Clear] + [Append(msg)];
      ReplayConcat(d, [Clear], [Append(msg)]);
      ReplayOne(d, Clear);
      ReplayOne(d.(text := ""), Append(msg));
      assert "" + UpdatedMessage(InitialsName, initials) + NewLine == "Updated Initials to: " + initials + NewLine;
    case Failure(m) =>
      assert r.events[|st.events|..] == [Clear] + [Error(m)];
      ErrorIsShownAlone(d, [Clear], m);
  }

  /** After `UpdateHighScore` the display shows the one confirmation line
      in white, or the failure text in red; when the stored text does not
      parse, the callback throws before its message and the display stays
      cleared. */
  lemma UpdateHighScoreIsShown(d: Screen, st: Session, tableName: string, score: string, o: Outcome)
    ensures var r := UpdateHighScoreStep(st, tableName, score, o);
      Replay(d, r.events[|st.events|..]) ==
        match o
        case Success =>
          if ParseInt(score).Some? then Screen("Updated HighScore to: " + score + NewLine, White)
          else Screen("", d.color)
        case Failure(m) => Screen(m, Red)
  {
    var r := UpdateHighScoreStep(st, tableName, score, o);
    UpdateHighScoreTouchesOnlyHighScore(st, tableName, score, o);
    match o
    case Success =>
      if ParseInt(score).Some? {
        var msg := "Updated HighScore to: " + score;
        AfterPrefix(st.events, [Clear, Append(msg)]);
        assert [Clear, Append(msg)] == [Clear] + [Append(msg)];
        ReplayConcat(d, [Clear], [Append(msg)]);
        ReplayOne(d, Clear);
        ReplayOne(d.(text := ""), Append(msg));
        assert "" + msg + NewLine == msg + NewLine;
      } else {
        AfterPrefix(st.events, [Clear]);
        ReplayOne(d, Clear);
      }
    case Failure(m) =>
      AfterPrefix(st.events, [Clear, Error(m)]);
      assert [Clear, Error(m)] == [Clear] + [Error(m)];
      ErrorIsShownAlone(d, [Clear], m);
  }

  /** After `CreatePlayerInfo` the display shows the announcement and the
      confirmation, or only the failure text in red. */
  lemma CreateIsShown(d: Screen, st: Session, tableName: string, p: PlayerInfo, o: Outcome)
    ensures var r := CreateStep(st, tableName, p, o);
      Replay(d, r.events[|st.events|..]) ==
        match o
        case Success => Screen("Creating new PlayerInfo for " + p.userId + NewLine + "PlayerInfo saved" + NewLine, White)
        case Failure(m) => Screen(m, Red)
  {
    var r := CreateStep(st, tableName, p, o);
    var announce := "Creating new PlayerInfo for " + p.userId;
    match o
    case Success =>
      assert r.events[|st.events|..] == [Clear] + [Append(announce)] + [Append("PlayerInfo saved")];
      ReplayConcat(d, [Clear] + [Append(announce)], [Append("PlayerInfo saved")]);
      ReplayConcat(d, [Clear], [Append(announce)]);
      ReplayOne(d, Clear);
      ReplayOne(d.(text := ""), Append(announce));
      var mid := Screen("" + announce + NewLine, White);
      ReplayOne(mid, Append("PlayerInfo saved"));
      assert "" + announce + NewLine == announce + NewLine;
    case Failure(m) =>
      assert r.events[|st.events|..] == [Clear, Append(announce)] + [Error(m)];
      ErrorIsShownAlone(d, [Clear, Append(announce)], m);
  }

  // ---------------------------------------------------------------------
  // The panel

  /** Unity's `InputField.text` setter stores `null` as the empty text. */
  function InputText(s: Option<string>): string
  {
    if s.Some? then s.value else ""
  }

  /** `OnButtonUpdateCreate`: the panel is shown or hidden in turn; shown,
      its inputs hold the record's fields (the score printed); hidden, they
      are emptied. */
  function Toggled(panel: Panel, p: PlayerInfo): (r: Panel)
    ensures r.active == !panel.active
    ensures r.active ==> r == Panel(true, p.userId, InputText(p.initials), IntToString(p.highScore))
    ensures !r.active ==> r.id == "" && r.initials == "" && r.highScore == ""
  {
    if !panel.active then Panel(true, p.userId, InputText(p.initials), IntToString(p.highScore))
    else Panel(false, "", "", "")
  }

  /** `OnInputUpdateCreateChange`: submit is possible when no input is empty. */
  predicate SubmitEnabled(panel: Panel)
  {
    panel.id != "" && panel.initials != "" && panel.highScore != ""
  }

  /** A hidden panel never allows a submit; a freshly shown one does when
      the record has a key and non-empty initials. */
  lemma SubmitEnabledAfterToggle(panel: Panel, p: PlayerInfo)
    ensures var r := Toggled(panel, p);
      (!r.active ==> !SubmitEnabled(r))
      && (r.active ==> (SubmitEnabled(r) <==> p.userId != "" && InputText(p.initials) != ""))
  {
  }

  // ---------------------------------------------------------------------
  // Reconciling a submitted form with the record

  /** A call the form makes on the manager. */
  datatype StoreCall = Create(record: PlayerInfo) | SetInitials(initials: string) | SetHighScore(score: string)

  /** The calls a submit makes, in order, and whether it reaches its end
      (it does not when `int.Parse` throws on the score input). */
  datatype Plan = Plan(calls: seq<StoreCall>, completes: bool)

  /** `OnSubmitUpdateCreate`: a different key saves the whole form as a new
      record; the same key updates each field that differs, initials first,
      the score compared after parsing. */
  function SubmitPlan(p: PlayerInfo, panel: Panel): Plan
  {
    if panel.id != p.userId then
      match ParseInt(panel.highScore)
      case None => Plan([], false)
      case Some(v) => Plan([Create(PlayerInfo(panel.id, Some(panel.initials), v))], true)
    else
      var first := if Some(panel.initials) != p.initials then [SetInitials(panel.initials)] else [];
      match ParseInt(panel.highScore)
      case None => Plan(first, false)
      case Some(v) => Plan(first + (if v != p.highScore then [SetHighScore(panel.highScore)] else []), true)
  }

  /** The manager's steps for a run of calls; each kind of call meets the
      outcome given for it. */
  function Perform(st: Session, tableName: string, calls: seq<StoreCall>,
                   create: Outcome, initials: Outcome, score: Outcome): Session
    decreases |calls|
  {
    if calls == [] then st
    else Perform(StepOf(st, tableName, calls[0], create, initials, score), tableName, calls[1..], create, initials, score)
  }

  /** The request each call sends for the player with key `id`. */
  function RequestOf(id: string, tableName: string, call: StoreCall): Request
  {
    match call
    case Create(q) => SaveCall(PlayerTable, q)
    case SetInitials(x) => UpdateItemCall(tableName, id, InitialsName, Str(x))
    case SetHighScore(x) => UpdateItemCall(tableName, id, HighScoreName, Num(x))
  }

  /** The manager step for one call. */
  function StepOf(st: Session, tableName: string, call: StoreCall,
                  create: Outcome, initials: Outcome, score: Outcome): (r: Session)
    ensures r.player.userId == st.player.userId
    ensures r.requests == st.requests + [RequestOf(st.player.userId, tableName, call)]
  {
    match call
    case Create(q) => CreateStep(st, tableName, q, create)
    case SetInitials(x) => UpdateInitialsStep(st, tableName, x, initials)
    case SetHighScore(x) => UpdateHighScoreStep(st, tableName, x, score)
  }

  /** The requests a run of calls sends for the player with key `id`. */
  function RequestsOf(id: string, tableName: string, calls: seq<StoreCall>): (rs: seq<Request>)
    ensures |rs| == |calls|
    ensures forall i :: 0 <= i < |calls| ==> rs[i] == RequestOf(id, tableName, calls[i])
  {
    if calls == [] then [] else [RequestOf(id, tableName, calls[0])] + RequestsOf(id, tableName, calls[1..])
  }

  lemma PerformOne(st: Session, tableName: string, call: StoreCall,
                   create: Outcome, initials: Outcome, score: Outcome)
    ensures Perform(st, tableName, [call], create, initials, score) == StepOf(st, tableName, call, create, initials, score)
  {
    assert [call][1..] == [];
  }

  lemma {:induction false} PerformConcat(st: Session, tableName: string, a: seq<StoreCall>, b: seq<StoreCall>,
                                         create: Outcome, initials: Outcome, score: Outcome)
    ensures Perform(st, tableName, a + b, create, initials, score)
         == Perform(Perform(st, tableName, a, create, initials, score), tableName, b, create, initials, score)
    decreases |a|
  {
    if a == [] {
      assert a + b == b;
    } else {
      assert (a + b)[0] == a[0] && (a + b)[1..] == a[1..] + b;
      var next := StepOf(st, tableName, a[0], create, initials, score);
      assert Perform(st, tableName, a + b, create, initials, score) == Perform(next, tableName, a[1..] + b, create, initials, score);
      PerformConcat(next, tableName, a[1..], b, create, initials, score);
    }
  }

  /** A run of calls sends exactly one request per call, in order, and
      never changes the record's key. */
  lemma {:induction false} PerformSendsOneRequestPerCall(st: Session, tableName: string, calls: seq<StoreCall>,
                                                         create: Outcome, initials: Outcome, score: Outcome)
    ensures var r := Perform(st, tableName, calls, create, initials, score);
      r.player.userId == st.player.userId && r.requests == st.requests + RequestsOf(st.player.userId, tableName, calls)
    decreases |calls|
  {
    if calls == [] {
      assert st.requests + [] == st.requests;
    } else {
      var next := StepOf(st, tableName, calls[0], create, initials, score);
      PerformSendsOneRequestPerCall(next, tableName, calls[1..], create, initials, score);
      Assoc(st.requests, [RequestOf(st.player.userId, tableName, calls[0])], RequestsOf(st.player.userId, tableName, calls[1..]));
    }
  }

  /** A form with another key makes exactly one save, of the whole form
      with the parsed score, and no update; a score that does not parse
      makes no call and ends the submit. */
  lemma SubmitOtherIdSavesForm(p: PlayerInfo, panel: Panel)
    requires panel.id != p.userId
    ensures var plan := SubmitPlan(p, panel);
      && plan.completes == ParseInt(panel.highScore).Some?
      && (plan.completes ==> plan.calls == [Create(PlayerInfo(panel.id, Some(panel.initials), ParseInt(panel.highScore).value))])
      && (!plan.completes ==> plan.calls == [])
  {
  }

  /** A form with the record's key updates the initials exactly when they
      differ and the score exactly when its parsed value differs, initials
      first, and never saves a whole record. */
  lemma SubmitSameIdUpdatesChangedFields(p: PlayerInfo, panel: Panel)
    requires panel.id == p.userId
    ensures var plan := SubmitPlan(p, panel);
      var v := ParseInt(panel.highScore);
      && plan.completes == v.Some?
      && (SetInitials(panel.initials) in plan.calls <==> Some(panel.initials) != p.initials)
      && (SetHighScore(panel.highScore) in plan.calls <==> v.Some? && v.value != p.highScore)
      && (forall i :: 0 <= i < |plan.calls| ==> plan.calls[i] == SetInitials(panel.initials) || plan.calls[i] == SetHighScore(panel.highScore))
      && (|plan.calls| == 2 ==> plan.calls == [SetInitials(panel.initials), SetHighScore(panel.highScore)])
      && |plan.calls| == (if Some(panel.initials) != p.initials then 1 else 0)
                         + (if v.Some? && v.value != p.highScore then 1 else 0)
  {
  }

  /** Every score update a submit plans carries a text that `int.Parse`
      has already accepted. */
  lemma SubmitScoresParse(p: PlayerInfo, panel: Panel, x: string)
    requires SetHighScore(x) in SubmitPlan(p, panel).calls
    ensures ParseInt(x).Some? && x == panel.highScore
  {
  }

  /** A form equal to the record makes no call at all. */
  lemma SubmitUnchangedIsNoop(p: PlayerInfo, panel: Panel)
    requires panel.id == p.userId && p.initials == Some(panel.initials)
    requires ParseInt(panel.highScore) == Some(p.highScore)
    ensures SubmitPlan(p, panel) == Plan([], true)
  {
  }

  /** With the record's key, changed initials and a score that does not
      parse, the initials update is sent before the submit stops. */
  lemma InitialsSentBeforeBadScore(p: PlayerInfo, panel: Panel)
    requires panel.id == p.userId && p.initials != Some(panel.initials)
    requires ParseInt(panel.highScore).None?
    ensures SubmitPlan(p, panel) == Plan([SetInitials(panel.initials)], false)
  {
  }

  /** Showing the panel and submitting it untouched makes no call. */
  lemma ReopenedFormIsNoop(p: PlayerInfo, panel: Panel)
    requires !panel.active && p.initials.Some?
    ensures SubmitPlan(p, Toggled(panel, p)) == Plan([], true)
  {
    ParseIntToString(p.highScore);
  }

  /** A record that was never filled has null initials, which the input
      shows as empty text; submitting that form untouched still sends an
      update that sets the initials to the empty text. */
  lemma UnfilledRecordResendsInitials(p: PlayerInfo, panel: Panel)
    requires !panel.active && p.initials.None?
    ensures SubmitPlan(p, Toggled(panel, p)) == Plan([SetInitials("")], true)
  {
    ParseIntToString(p.highScore);
  }

  /** A form with another key leaves the session's record as it was,
      whatever the save's outcome. */
  lemma SubmitOtherIdKeepsRecord(st: Session, tableName: string, panel: Panel,
                                 create: Outcome, initials: Outcome, score: Outcome)
    requires panel.id != st.player.userId
    ensures Perform(st, tableName, SubmitPlan(st.player, panel).calls, create, initials, score).player == st.player
  {
  }

  /** Record `{A, AB, 10}`, form `{A, CD, 10}`: one update, of the initials
      to `CD`, and none touching the score; afterwards `{A, CD, 10}`. */
  lemma ChangeInitialsScenario(st: Session, tableName: string, create: Outcome, score: Outcome)
    requires st.player == PlayerInfo("A", Some("AB"), 10)
    ensures var plan := SubmitPlan(st.player, Panel(true, "A", "CD", "10"));
      && plan == Plan([SetInitials("CD")], true)
      && var r := Perform(st, tableName, plan.calls, create, Success, score);
         && r.player == PlayerInfo("A", Some("CD"), 10)
         && r.requests == st.requests + [UpdateItemCall(tableName, "A", "Initials", Str("CD"))]
  {
    assert TrimStart("10") == "10" && TrimEnd("10") == "10";
    assert "10"[..1] == "1" && "1"[..0] == "";
  }

  // ---------------------------------------------------------------------
  // The screen object

  class UiManager {
    const aws: AwsManager
    /** The label that shows the record's key. */
    var idLabel: string
    var active: bool
    var inputId: string
    var inputInitials: string
    var inputHighScore: string
    /** Whether the submit button can be pressed. */
    var interactable: bool
    /** The shared display. */
    var text: string
    var color: Color

    function PanelState(): Panel
      reads this
    {
      Panel(active, inputId, inputInitials, inputHighScore)
    }

    function DisplayState(): Screen
      reads this
    {
      Screen(text, color)
    }

    /** `Start`: needs the record to exist; hides the panel and labels the
        key. The inputs, the button and the display keep the values the
        scene gave them, which are parameters here. */
    constructor Start(aws: AwsManager, scene: Panel, interactable: bool, display: Screen)
      requires aws.player.Some?
      ensures this.aws == aws && idLabel == "UserId: " + aws.player.value.userId
      ensures PanelState() == scene.(active := false)
      ensures this.interactable == interactable && DisplayState() == display
    {
      this.aws := aws;
      idLabel := "UserId: " + aws.player.value.userId;
      active := false;
      inputId, inputInitials, inputHighScore := scene.id, scene.initials, scene.highScore;
      this.interactable := interactable;
      text, color := display.text, display.color;
    }

    method OnButtonUpdateCreate()
      requires aws.player.Some?
      modifies this`active, this`inputId, this`inputInitials, this`inputHighScore
      ensures PanelState() == Toggled(old(PanelState()), aws.player.value)
    {
      active := !active;
      if active {
        inputId := aws.player.value.userId;
        inputInitials := InputText(aws.player.value.initials);
        inputHighScore := IntToString(aws.player.value.highScore);
      } else {
        inputId := "";
        inputInitials := "";
        inputHighScore := "";
      }
    }

    /** Submits the form: the calls of `SubmitPlan`, each meeting the
        outcome given for its kind, then the panel is toggled. When the
        score does not parse the submit stops where it is and the panel
        stays. */
    method OnSubmitUpdateCreate(create: Outcome, initials: Outcome, score: Outcome) returns (completed: bool)
      requires aws.Valid() && aws.player.Some?
      modifies this`active, this`inputId, this`inputInitials, this`inputHighScore
      modifies aws`player, aws`table, aws`events, aws`requests
      ensures aws.Valid() && aws.player.Some?
      ensures completed == SubmitPlan(old(aws.player.value), old(PanelState())).completes
      ensures aws.State() ==
        Perform(old(aws.State()), aws.tableName.value, SubmitPlan(old(aws.player.value), old(PanelState())).calls,
                create, initials, score)
      ensures PanelState() == if completed then Toggled(old(PanelState()), aws.player.value) else old(PanelState())
    {
      ghost var st := aws.State();
      ghost var tableName := aws.tableName.value;
      var p := aws.player.value;
      ghost var plan := SubmitPlan(p, PanelState());
      if inputId != p.userId {
        var parsed := ParseInt(inputHighScore);
        if parsed.None? {
          // int.Parse throws before the save
          assert plan == Plan([], false);
          return false;
        }
        var q := PlayerInfo(inputId, Some(inputInitials), parsed.value);
        assert plan == Plan([Create(q)], true);
        aws.CreatePlayerInfo(q, create);
        PerformOne(st, tableName, Create(q), create, initials, score);
      } else {
        ghost var first: seq<StoreCall> := [];
        if Some(inputInitials) != p.initials {
          aws.UpdateInitials(inputInitials, initials);
          first := [SetInitials(inputInitials)];
          PerformOne(st, tableName, SetInitials(inputInitials), create, initials, score);
        }
        ghost var mid := aws.State();
        assert mid == Perform(st, tableName, first, create, initials, score);
        assert mid.player.highScore == p.highScore;
        var parsed := ParseInt(inputHighScore);
        if parsed.None? {
          // int.Parse throws after the initials were sent
          assert plan == Plan(first, false);
          return false;
        }
        if parsed.value != aws.player.value.highScore {
          aws.UpdateHighScore(inputHighScore, score);
          assert plan == Plan(first + [SetHighScore(inputHighScore)], true);
          PerformOne(mid, tableName, SetHighScore(inputHighScore), create, initials, score);
          PerformConcat(st, tableName, first, [SetHighScore(inputHighScore)], create, initials, score);
        } else {
          assert first + [] == first;
          assert plan == Plan(first, true);
        }
      }
      OnButtonUpdateCreate();
      completed := true;
    }

    method OnInputUpdateCreateChange()
      modifies this`interactable
      ensures interactable == SubmitEnabled(PanelState())
    {
      if inputId != "" && inputInitials != "" && inputHighScore != "" {
        interactable := true;
      } else {
        interactable := false;
      }
    }

    method ClearDisplay()
      modifies this`text
      ensures text == ""
    {
      text := "";
    }

    method DisplayError(s: string)
      modifies this`text, this`color
      ensures text == s && color == Red
    {
      ClearDisplay();
      color := Red;
      text := s;
    }

    method DisplayMessage(s: string)
      modifies this`text, this`color
      ensures text == s && color == White
    {
      ClearDisplay();
      color := White;
      text := text + s;
    }

    method AppendToDisplay(s: string)
      modifies this`text, this`color
      ensures text == old(text) + s + NewLine && color == White
      ensures old(text) <= text
    {
      color := White;
      text := text + s + NewLine;
    }

    /** The three subscriptions made at start: a notification from the
        manager runs the matching display method. */
    method OnAwsEvent(e: Event)
      modifies this`text, this`color
      ensures DisplayState() == React(old(DisplayState()), e)
    {
      match e
      case Clear => ClearDisplay();
      case Append(s) => AppendToDisplay(s);
      case Error(s) => DisplayError(s);
    }
  }
}
