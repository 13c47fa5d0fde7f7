/** The DynamoDB table as the service holds it, and the effect of the four
    requests the game issues: a filtered scan with a projection, an
    `UpdateItem` that sets one attribute, and the object mapper's save. */
module Dynamo {
  import opened Wrappers
  import opened Numbers
  import opened PlayerRecord

  /** The SDK's attribute value: one nullable field per kind. Kinds the game
      never reads (binary, boolean, list, map, null) are all four `None`. */
  datatype AttributeValue = AttributeValue(
    s: Option<string>, n: Option<string>, ss: Option<seq<string>>, ns: Option<seq<string>>)

  function Str(t: string): AttributeValue { AttributeValue(Some(t), None, None, None) }

  function Num(t: string): AttributeValue { AttributeValue(None, Some(t), None, None) }

  /** A stored item: attribute name to value. */
  type Row = map<string, AttributeValue>

  /** An item as a response lists it: attribute pairs in order. */
  type Item = seq<(string, AttributeValue)>

  /** The table: each row under the string value of its `UserId` hash key. */
  type Table = map<string, Row>

  const UserIdName: string := "UserId"
  const InitialsName: string := "Initials"
  const HighScoreName: string := "HighScore"

  /** The projection of the player's own lookup: `Initials, HighScore`. */
  const FetchNames: seq<string> := [InitialsName, HighScoreName]

  /** The projection of the two browse scans: `UserId, Initials, HighScore`. */
  const ScanNames: seq<string> := [UserIdName, InitialsName, HighScoreName]

  /** Every row holds its own key as its `UserId` string attribute. */
  ghost predicate WellKeyed(t: Table)
  {
    forall k :: k in t ==> UserIdName in t[k] && t[k][UserIdName] == Str(k)
  }

  /** The scan filters the game uses: none, `UserId = :id` with a string
      operand, and `HighScore > :val` with a number operand. */
  datatype Filter = Everything | UserIdEquals(id: string) | HighScoreAbove(bound: int)

  /** The integer a number attribute holds; strings and sets compare false
      against a number operand. */
  function NumberOf(a: AttributeValue): (r: Option<int>)
    ensures r.Some? ==> a.n.Some? && ParseInteger(a.n.value) == r
  {
    if a.s.None? && a.n.Some? && a.ss.None? && a.ns.None? then ParseInteger(a.n.value) else None
  }

  predicate Matches(f: Filter, row: Row)
  {
    match f
    case Everything => true
    case UserIdEquals(id) => UserIdName in row && row[UserIdName] == Str(id)
    case HighScoreAbove(bound) =>
      HighScoreName in row && NumberOf(row[HighScoreName]).Some? && NumberOf(row[HighScoreName]).value > bound
  }

  /** A projection expression: the named attributes the row has, in the
      order the expression names them. */
  function Project(row: Row, names: seq<string>): (item: Item)
    ensures |item| <= |names|
    ensures forall i :: 0 <= i < |item| ==> item[i].0 in names && item[i].0 in row && item[i].1 == row[item[i].0]
    ensures forall a :: a in names && a in row ==> (a, row[a]) in item
  {
    if names == [] then []
    else (if names[0] in row then [(names[0], row[names[0]])] else []) + Project(row, names[1..])
  }

  /** One page of a scan: the rows the filter keeps, visited in the order
      `order` in which the service enumerates the table, each projected. */
  function ScanTable(t: Table, order: seq<string>, f: Filter, names: seq<string>): (items: seq<Item>)
    ensures |items| <= |order|
  {
    if order == [] then []
    else
      var rest := ScanTable(t, order[1..], f, names);
      if order[0] in t && Matches(f, t[order[0]]) then [Project(t[order[0]], names)] + rest else rest
  }

  predicate Distinct(order: seq<string>)
  {
    forall i, j :: 0 <= i < j < |order| ==> order[i] != order[j]
  }

  /** A scan whose single page covers the whole table: each key exactly
      once. The game never asks for a second page, so the lemmas stated
      under this assumption hold only when one page (at most 1 MB) holds
      every row; a larger table is read through a partial `order`. */
  predicate IsScanOrder(t: Table, order: seq<string>)
  {
    && Distinct(order)
    && (forall i :: 0 <= i < |order| ==> order[i] in t)
    && (forall k :: k in t ==> k in order)
  }

  /** `UpdateItem` with `SET name = v`: the row under `key` (created with
      just its key when missing) gets `name` set; nothing else changes. */
  function UpdateField(t: Table, key: string, name: string, v: AttributeValue): (r: Table)
    ensures r.Keys == t.Keys + {key}
    ensures name in r[key] && r[key][name] == v
  {
    var base := if key in t then t[key] else map[UserIdName := Str(key)];
    t[key := base[name := v]]
  }

  /** The row the object mapper writes for a record; a null `Initials`
      is not written. */
  function RowOf(p: PlayerInfo): (row: Row)
    ensures UserIdName in row && row[UserIdName] == Str(p.userId)
    ensures HighScoreName in row && row[HighScoreName] == Num(IntToString(p.highScore))
    ensures InitialsName in row <==> p.initials.Some?
    ensures p.initials.Some? ==> row[InitialsName] == Str(p.initials.value)
  {
    var fixed := map[UserIdName := Str(p.userId), HighScoreName := Num(IntToString(p.highScore))];
    if p.initials.Some? then fixed[InitialsName := Str(p.initials.value)] else fixed
  }

  /** The save: the whole record replaces whatever row had its key. */
  function Put(t: Table, p: PlayerInfo): (r: Table)
    ensures r.Keys == t.Keys + {p.userId} && r[p.userId] == RowOf(p)
    ensures forall k :: k in t && k != p.userId ==> r[k] == t[k]
  {
    t[p.userId := RowOf(p)]
  }

  /** An update of one attribute other than the key leaves every other row,
      and every other attribute of its own row, as it was. */
  lemma UpdateFieldIsolated(t: Table, key: string, name: string, v: AttributeValue)
    ensures var r := UpdateField(t, key, name, v);
      && (forall k :: k in t && k != key ==> r[k] == t[k])
      && (key in t ==> r[key].Keys == t[key].Keys + {name})
      && (key in t ==> forall a :: a in t[key] && a != name ==> r[key][a] == t[key][a])
      && (key !in t ==> r[key].Keys == {UserIdName, name})
  {
  }

  lemma UpdateFieldKeepsKeys(t: Table, key: string, name: string, v: AttributeValue)
    requires WellKeyed(t) && name != UserIdName
    ensures WellKeyed(UpdateField(t, key, name, v))
  {
  }

  lemma PutKeepsKeys(t: Table, p: PlayerInfo)
    requires WellKeyed(t)
    ensures WellKeyed(Put(t, p))
  {
  }

  /** An item is in a scan's result exactly when some enumerated row passes
      the filter and projects to it. */
  lemma {:induction false} ScanMembers(t: Table, order: seq<string>, f: Filter, names: seq<string>, item: Item)
    ensures item in ScanTable(t, order, f, names) <==>
      exists i :: 0 <= i < |order| && order[i] in t && Matches(f, t[order[i]]) && item == Project(t[order[i]], names)
  {
    if order != [] {
      ScanMembers(t, order[1..], f, names, item);
      if item in ScanTable(t, order[1..], f, names) {
        var i :| 0 <= i < |order[1..]| && order[1..][i] in t && Matches(f, t[order[1..][i]])
                 && item == Project(t[order[1..][i]], names);
        assert order[i + 1] == order[1..][i];
      }
      if exists i :: 0 <= i < |order| && order[i] in t && Matches(f, t[order[i]]) && item == Project(t[order[i]], names) {
        var i :| 0 <= i < |order| && order[i] in t && Matches(f, t[order[i]]) && item == Project(t[order[i]], names);
        if i > 0 {
          assert order[1..][i - 1] == order[i];
        }
      }
    }
  }

  /** An unfiltered scan yields one item per enumerated row, in order. */
  lemma {:induction false} ScanEverything(t: Table, order: seq<string>, names: seq<string>)
    requires forall i :: 0 <= i < |order| ==> order[i] in t
    ensures var items := ScanTable(t, order, Everything, names);
      |items| == |order| && forall i :: 0 <= i < |order| ==> items[i] == Project(t[order[i]], names)
  {
    if order != [] {
      ScanEverything(t, order[1..], names);
      var items := ScanTable(t, order, Everything, names);
      forall i | 0 <= i < |order| ensures items[i] == Project(t[order[i]], names) {
        if i > 0 {
          assert items[i] == ScanTable(t, order[1..], Everything, names)[i - 1];
          assert order[1..][i - 1] == order[i];
        }
      }
    }
  }

  /** Every row of the table appears in a full scan. */
  lemma ScanEntriesShowsEveryRow(t: Table, order: seq<string>, names: seq<string>, k: string)
    requires IsScanOrder(t, order) && k in t
    ensures Project(t[k], names) in ScanTable(t, order, Everything, names)
  {
    var i :| 0 <= i < |order| && order[i] == k;
    ScanMembers(t, order, Everything, names, Project(t[k], names));
  }

  /** The positive-score scan yields exactly the rows whose `HighScore` is
      a number above zero. */
  lemma PositiveScanExact(t: Table, order: seq<string>, names: seq<string>, item: Item)
    requires IsScanOrder(t, order)
    ensures item in ScanTable(t, order, HighScoreAbove(0), names) <==>
      exists k :: k in t && Matches(HighScoreAbove(0), t[k]) && item == Project(t[k], names)
  {
    ScanMembers(t, order, HighScoreAbove(0), names, item);
    if exists k :: k in t && Matches(HighScoreAbove(0), t[k]) && item == Project(t[k], names) {
      var k :| k in t && Matches(HighScoreAbove(0), t[k]) && item == Project(t[k], names);
      var i :| 0 <= i < |order| && order[i] == k;
    }
  }

  /** Looking a key up by a `UserId =` filter scan finds its row and only it. */
  lemma {:induction false} ScanByIdFindsOwnRow(t: Table, order: seq<string>, id: string, names: seq<string>)
    requires WellKeyed(t) && Distinct(order) && forall i :: 0 <= i < |order| ==> order[i] in t
    ensures ScanTable(t, order, UserIdEquals(id), names) == if id in order then [Project(t[id], names)] else []
  {
    if order != [] {
      assert Distinct(order[1..]) by {
        forall i, j | 0 <= i < j < |order[1..]| ensures order[1..][i] != order[1..][j] {
          assert order[1..][i] == order[i + 1] && order[1..][j] == order[j + 1];
        }
      }
      ScanByIdFindsOwnRow(t, order[1..], id, names);
      assert Matches(UserIdEquals(id), t[order[0]]) <==> order[0] == id;
      if order[0] == id {
        assert id !in order[1..] by {
          forall j | 0 <= j < |order[1..]| ensures order[1..][j] != id {
            assert order[1..][j] == order[j + 1];
          }
        }
      } else {
        assert id in order <==> id in order[1..] by {
          if id in order {
            var j :| 0 <= j < |order| && order[j] == id;
            assert order[1..][j - 1] == id;
          }
        }
      }
    }
  }

  /** The same, stated over a scan that enumerates the whole table. */
  lemma LookupById(t: Table, order: seq<string>, id: string, names: seq<string>)
    requires WellKeyed(t) && IsScanOrder(t, order)
    ensures ScanTable(t, order, UserIdEquals(id), names) == if id in t then [Project(t[id], names)] else []
  {
    ScanByIdFindsOwnRow(t, order, id, names);
  }
}
