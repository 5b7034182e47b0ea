/**
 * The history table behind `HistoryDao`: rows keyed by their integer id,
 * plus the counter SQLite keeps for `AUTOINCREMENT` keys. The pure functions
 * give the meaning of each DAO call; the class `HistoryDao` holds the table
 * and updates it in place.
 */
module HistoryStore {
  import opened Platform
  import opened HistoryEntity

  /** The rows, keyed by id, and the next id `AUTOINCREMENT` will hand out. */
  datatype Table = Table(rows: map<int, HistoryItem>, nextId: int)

  /** A table that has never held a row: generated ids start at 1. */
  const EMPTY: Table := Table(map[], 1)

  /**
   * Every row is stored under its own id, no row has the id that asks for
   * generation, and the counter is past every id ever used.
   */
  ghost predicate WellFormed(t: Table) {
    && 1 <= t.nextId
    && AUTO_ID !in t.rows
    && forall k :: k in t.rows ==> t.rows[k].id == k && k < t.nextId
  }

  /** No two rows share a url. The table does not enforce this. */
  ghost predicate UrlsUnique(rows: map<int, HistoryItem>) {
    forall a, b :: a in rows && b in rows && rows[a].url == rows[b].url ==> a == b
  }

  function Max(a: int, b: int): (m: int)
    ensures m >= a && m >= b && (m == a || m == b)
  {
    if a < b then b else a
  }

  /**
   * `@Insert(onConflict = REPLACE)`. An item whose id is `AUTO_ID` gets the
   * next generated id; any other id is stored as given and replaces the row
   * with that id if there is one. No other row changes.
   */
  function Inserted(t: Table, item: HistoryItem): (r: Table)
    ensures WellFormed(t) ==> WellFormed(r)
    ensures item.id != AUTO_ID ==>
      && r.rows.Keys == t.rows.Keys + {item.id}
      && r.rows[item.id] == item
      && r.nextId >= t.nextId
    ensures item.id == AUTO_ID ==>
      && r.rows.Keys == t.rows.Keys + {t.nextId}
      && r.rows[t.nextId] == HistoryItem(t.nextId, item.url, item.title, item.timestamp)
      && r.nextId == t.nextId + 1
      && (WellFormed(t) ==> t.nextId !in t.rows && t.nextId != AUTO_ID && |r.rows| == |t.rows| + 1)
    ensures forall k :: k in t.rows && k != (if item.id == AUTO_ID then t.nextId else item.id) ==>
      r.rows[k] == t.rows[k]
  {
    if item.id == AUTO_ID then
      Table(t.rows[t.nextId := item.(id := t.nextId)], t.nextId + 1)
    else
      Table(t.rows[item.id := item], Max(t.nextId, item.id + 1))
  }

  /** `DELETE FROM history_table WHERE id = :itemId`. */
  function DeletedById(t: Table, itemId: int): (r: Table)
    ensures WellFormed(t) ==> WellFormed(r)
    ensures r.rows.Keys == t.rows.Keys - {itemId}
    ensures forall k :: k in r.rows ==> r.rows[k] == t.rows[k]
    ensures r.nextId == t.nextId
    ensures itemId !in t.rows ==> r == t
  {
    Table(t.rows - {itemId}, t.nextId)
  }

  /** `DELETE FROM history_table`. The id counter is not reset. */
  function Cleared(t: Table): (r: Table)
    ensures WellFormed(t) ==> WellFormed(r)
    ensures |r.rows| == 0
    ensures r.nextId == t.nextId
  {
    Table(map[], t.nextId)
  }

  /** `m` is the least element of `s`. */
  predicate IsLeast(m: int, s: set<int>) {
    m in s && forall j :: j in s ==> m <= j
  }

  /** Every set of integers with an element `x` has a least element. */
  lemma {:induction false} MinimumExists(s: set<int>, x: int)
    requires x in s
    ensures exists m :: IsLeast(m, s)
    decreases s
  {
    var rest := s - {x};
    if y :| y in rest {
      MinimumExists(rest, y);
      var m :| IsLeast(m, rest);
      var least := if x < m then x else m;
      forall j | j in s ensures least <= j {
        assert j == x || j in rest;
      }
      assert IsLeast(least, s);
    } else {
      forall j | j in s ensures x <= j {
        assert j == x || j in rest;
      }
      assert IsLeast(x, s);
    }
  }

  /**
   * `SELECT * FROM history_table WHERE url = :url LIMIT 1`. Without an index
   * on url the table is scanned in id order, so the row returned is the
   * matching row with the least id.
   */
  function FindByUrl(t: Table, url: string): (r: Option<HistoryItem>)
    ensures r.None? <==> forall k :: k in t.rows ==> t.rows[k].url != url
    ensures r.Some? ==> r.value.url == url && r.value in t.rows.Values
    ensures r.Some? && WellFormed(t) ==>
      && r.value.id in t.rows && t.rows[r.value.id] == r.value
      && forall k :: k in t.rows && t.rows[k].url == url ==> r.value.id <= k
  {
    var matching := set k | k in t.rows && t.rows[k].url == url;
    if forall k :: k in t.rows ==> t.rows[k].url != url then
      None
    else
      var x :| x in t.rows && t.rows[x].url == url;
      assert forall k :: k in t.rows && t.rows[k].url == url ==> k in matching;
      MinimumExists(matching, x);
      var k :| IsLeast(k, matching);
      Some(t.rows[k])
  }

  /** Row `a` is listed no later than row `b`: newer first, ties by id. */
  predicate ListedBefore(rows: map<int, HistoryItem>, a: int, b: int)
    requires a in rows && b in rows
  {
    rows[a].timestamp > rows[b].timestamp || (rows[a].timestamp == rows[b].timestamp && a <= b)
  }

  /** `m` is the key of `ks` listed first. */
  predicate IsFirstListed(rows: map<int, HistoryItem>, m: int, ks: set<int>)
    requires ks <= rows.Keys
  {
    m in ks && forall j :: j in ks ==> ListedBefore(rows, m, j)
  }

  /** Every set of keys with an element `x` has a key listed before all the others. */
  lemma {:induction false} FirstListedExists(rows: map<int, HistoryItem>, ks: set<int>, x: int)
    requires x in ks && ks <= rows.Keys
    ensures exists m :: IsFirstListed(rows, m, ks)
    decreases ks
  {
    var rest := ks - {x};
    if y :| y in rest {
      FirstListedExists(rows, rest, y);
      var m :| IsFirstListed(rows, m, rest);
      var first := if ListedBefore(rows, x, m) then x else m;
      forall j | j in ks ensures ListedBefore(rows, first, j) {
        assert j == x || j in rest;
      }
      assert IsFirstListed(rows, first, ks);
    } else {
      forall j | j in ks ensures ListedBefore(rows, x, j) {
        assert j == x || j in rest;
      }
      assert IsFirstListed(rows, x, ks);
    }
  }

  /** A listing of `ks`: each key once, newest row first. */
  predicate IsListing(rows: map<int, HistoryItem>, ks: set<int>, r: seq<int>)
    requires ks <= rows.Keys
  {
    && |r| == |ks|
    && (forall i :: 0 <= i < |r| ==> r[i] in ks)
    && (forall k :: k in ks ==> k in r)
    && (forall i, j :: 0 <= i < j < |r| ==> r[i] != r[j])
    && (forall i, j :: 0 <= i < j < |r| ==> rows[r[i]].timestamp >= rows[r[j]].timestamp)
  }

  /** Putting the first-listed key in front of a listing of the others lists them all. */
  lemma ListingStep(rows: map<int, HistoryItem>, ks: set<int>, m: int, rest: seq<int>)
    requires ks <= rows.Keys && IsFirstListed(rows, m, ks)
    requires IsListing(rows, ks - {m}, rest)
    ensures IsListing(rows, ks, [m] + rest)
  {
    var r := [m] + rest;
    assert forall i :: 0 < i < |r| ==> r[i] == rest[i - 1];
    assert forall k :: k in ks ==> k == m || k in ks - {m};
  }

  /** The keys of `ks`, each once, newest row first. */
  function ListingKeys(rows: map<int, HistoryItem>, ks: set<int>): (r: seq<int>)
    requires ks <= rows.Keys
    ensures IsListing(rows, ks, r)
    decreases ks
  {
    if exists k :: k in ks then
      var x :| x in ks;
      FirstListedExists(rows, ks, x);
      FirstListedUnique(rows, ks);
      var m :| IsFirstListed(rows, m, ks);
      var rest := ListingKeys(rows, ks - {m});
      ListingStep(rows, ks, m, rest);
      [m] + rest
    else
      assert ks == {};
      []
  }

  /** At most one key is listed first. */
  lemma FirstListedUnique(rows: map<int, HistoryItem>, ks: set<int>)
    requires ks <= rows.Keys
    ensures forall a, b :: IsFirstListed(rows, a, ks) && IsFirstListed(rows, b, ks) ==> a == b
  {
    forall a, b | IsFirstListed(rows, a, ks) && IsFirstListed(rows, b, ks) ensures a == b {
      assert ListedBefore(rows, a, b) && ListedBefore(rows, b, a);
    }
  }

  /** The rows stored under the keys `ks`, in the same order. */
  function RowsAt(rows: map<int, HistoryItem>, ks: seq<int>): (r: seq<HistoryItem>)
    requires forall i :: 0 <= i < |ks| ==> ks[i] in rows
    ensures |r| == |ks|
    ensures forall i :: 0 <= i < |ks| ==> r[i] == rows[ks[i]]
  {
    seq(|ks|, i requires 0 <= i < |ks| => rows[ks[i]])
  }

  /** Reading the rows of a listing of every key gives each row once, newest first. */
  lemma ListingRowsFacts(t: Table, ks: seq<int>)
    requires WellFormed(t) && IsListing(t.rows, t.rows.Keys, ks)
    ensures var r := RowsAt(t.rows, ks);
      && |r| == |t.rows|
      && (forall i :: 0 <= i < |r| ==> r[i].id in t.rows && t.rows[r[i].id] == r[i])
      && (forall k :: k in t.rows ==> t.rows[k] in r)
      && (forall i, j :: 0 <= i < j < |r| ==> r[i].id != r[j].id)
      && (forall i, j :: 0 <= i < j < |r| ==> r[i].timestamp >= r[j].timestamp)
  {
    var r := RowsAt(t.rows, ks);
    assert forall i :: 0 <= i < |r| ==> r[i].id == ks[i];
    forall k | k in t.rows ensures t.rows[k] in r {
      var i :| 0 <= i < |ks| && ks[i] == k;
      assert r[i] == t.rows[k];
    }
  }

  /** `SELECT * FROM history_table ORDER BY timestamp DESC`, as one snapshot. */
  function AllHistory(t: Table): (r: seq<HistoryItem>)
    requires WellFormed(t)
    ensures |r| == |t.rows|
    ensures forall i :: 0 <= i < |r| ==> r[i].id in t.rows && t.rows[r[i].id] == r[i]
    ensures forall k :: k in t.rows ==> t.rows[k] in r
    ensures forall i, j :: 0 <= i < j < |r| ==> r[i].id != r[j].id
    ensures forall i, j :: 0 <= i < j < |r| ==> r[i].timestamp >= r[j].timestamp
  {
    var ks := ListingKeys(t.rows, t.rows.Keys);
    ListingRowsFacts(t, ks);
    RowsAt(t.rows, ks)
  }

  /**
   * The table does not keep urls unique: two auto-id inserts of the same url
   * leave two rows with that url.
   */
  lemma DuplicateUrlsAreNotPrevented(t: Table, url: string, title1: string, now1: int, title2: string, now2: int)
    requires WellFormed(t)
    ensures var t2 := Inserted(Inserted(t, NewHistoryItem(url, title1, now1)), NewHistoryItem(url, title2, now2));
      && |t2.rows| == |t.rows| + 2
      && t2.rows[t.nextId].url == url && t2.rows[t.nextId + 1].url == url
      && !UrlsUnique(t2.rows)
  {
    var t1 := Inserted(t, NewHistoryItem(url, title1, now1));
    var t2 := Inserted(t1, NewHistoryItem(url, title2, now2));
    assert t2.rows[t.nextId] == t1.rows[t.nextId];
  }

  /** The table held by the DAO, changed in place by the three write operations. */
  class HistoryDao {
    var rows: map<int, HistoryItem>
    var nextId: int

    function State(): (t: Table)
      reads this
    {
      Table(rows, nextId)
    }

    ghost predicate Valid()
      reads this
    {
      WellFormed(State())
    }

    constructor ()
      ensures Valid() && State() == EMPTY
    {
      rows := map[];
      nextId := 1;
    }

    method Insert(item: HistoryItem)
      requires Valid()
      modifies this
      ensures Valid()
      ensures State() == Inserted(old(State()), item)
    {
      if item.id == AUTO_ID {
        rows := rows[nextId := item.(id := nextId)];
        nextId := nextId + 1;
      } else {
        rows := rows[item.id := item];
        if nextId <= item.id {
          nextId := item.id + 1;
        }
      }
    }

    method DeleteById(itemId: int)
      requires Valid()
      modifies this
      ensures Valid()
      ensures State() == DeletedById(old(State()), itemId)
    {
      rows := rows - {itemId};
    }

    method DeleteAll()
      requires Valid()
      modifies this
      ensures Valid()
      ensures State() == Cleared(old(State()))
    {
      rows := map[];
    }

    /** `getAllHistory`, as one snapshot of the flow. */
    function GetAllHistory(): (r: seq<HistoryItem>)
      requires Valid()
      reads this
      ensures |r| == |rows|
      ensures forall i :: 0 <= i < |r| ==> r[i].id in rows && rows[r[i].id] == r[i]
      ensures forall k :: k in rows ==> rows[k] in r
      ensures forall i, j :: 0 <= i < j < |r| ==> r[i].timestamp >= r[j].timestamp
    {
      AllHistory(State())
    }

    /** `getHistoryItemByUrl`. */
    function GetHistoryItemByUrl(url: string): (r: Option<HistoryItem>)
      reads this
      ensures r.None? <==> forall k :: k in rows ==> rows[k].url != url
      ensures r.Some? ==> r.value.url == url && r.value in rows.Values
    {
      FindByUrl(State(), url)
    }
  }
}
