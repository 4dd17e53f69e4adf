/** The store behind `PrismaBaseRepository`: one table of records, each an
    id and a row of columns, with the Prisma operations the repositories
    call (`findUnique`, `create`, `update`, `delete`, `deleteMany`,
    `findMany`, `count`), and the base repository's own decisions (`save`
    dispatch on id '0', `update` skipping clean entities, `createMany`).
    Ids are generated by the store from a counter. */
module RepositoryBase {
  import opened Wrappers
  import opened Strings
  import opened EntityBase

  /** A stored row; `data` holds every column but `id`. */
  datatype Record = Record(id: string, data: Row)

  /** The id the store gives to the `n`-th created record. */
  function IdOf(n: nat): string {
    "c" + NatToString(n)
  }

  /** Different counters give different ids, and no id is '0'. */
  lemma IdOfInjective(m: nat, n: nat)
    ensures IdOf(m) == IdOf(n) ==> m == n
    ensures IdOf(n) != "0"
  {
    assert IdOf(n)[0] == 'c';
    if IdOf(m) == IdOf(n) {
      assert NatToString(m) == IdOf(m)[1..];
      assert NatToString(n) == IdOf(n)[1..];
      ParseNatToString(m);
      ParseNatToString(n);
    }
  }

  /** Column `col` of a record, the id included. */
  function Column(rec: Record, col: string): Value {
    if col == "id" then Str(rec.id) else Get(rec.data, col)
  }

  /** The columns Prisma writes from an input object: fields whose value
      is `undefined` are left out. */
  function Defined(row: Row): Row {
    map k | k in row && row[k] != Undefined :: row[k]
  }

  /** A text column as an entity reads it; a column of another kind
      cannot occur under the database schema and reads as "". */
  function StrColumn(rec: Record, col: string): string {
    if Column(rec, col).Str? then Column(rec, col).s else ""
  }

  /** A numeric (date or big integer) column; another kind reads as 0. */
  function NumColumn(rec: Record, col: string): int {
    if Column(rec, col).Num? then Column(rec, col).n else 0
  }

  /** A nullable text column: text is `Some`, anything else `None`. */
  function NullableColumn(rec: Record, col: string): Option<string> {
    if Column(rec, col).Str? then Some(Column(rec, col).s) else None
  }

  /** A nullable date column: a number is a date, anything else `null`. */
  function DateColumn(rec: Record, col: string): Option<int> {
    if Column(rec, col).Num? then Some(Column(rec, col).n) else None
  }

  /** A text column after an update clause of the changes from `before`
      to `after`: the value in `after` where the two differ, the stored
      value where they agree. `before` need not be what the record held:
      an entity measures its changes against the snapshot it was built
      with, however often it has been written since. */
  lemma StrColumnAfter(rec: Record, before: Row, after: Row, k: string, x: string)
    requires k != "id" && k in after && after[k] == Str(x)
    ensures StrColumn(Record(rec.id, Apply(rec.data, Changes(before, after))), k) ==
      if after[k] != Get(before, k) then x else StrColumn(rec, k)
  {
    ColumnAfterChanges(rec.data, before, after, k);
  }

  lemma NumColumnAfter(rec: Record, before: Row, after: Row, k: string, x: int)
    requires k != "id" && k in after && after[k] == Num(x)
    ensures NumColumn(Record(rec.id, Apply(rec.data, Changes(before, after))), k) ==
      if after[k] != Get(before, k) then x else NumColumn(rec, k)
  {
    ColumnAfterChanges(rec.data, before, after, k);
  }

  lemma NullableColumnAfter(rec: Record, before: Row, after: Row, k: string, x: Option<string>)
    requires k != "id" && k in after && after[k] == NullableValue(x)
    ensures NullableColumn(Record(rec.id, Apply(rec.data, Changes(before, after))), k) ==
      if after[k] != Get(before, k) then x else NullableColumn(rec, k)
  {
    ColumnAfterChanges(rec.data, before, after, k);
  }

  lemma DateColumnAfter(rec: Record, before: Row, after: Row, k: string, x: Option<int>)
    requires k != "id" && k in after && after[k] == DateValue(x)
    ensures DateColumn(Record(rec.id, Apply(rec.data, Changes(before, after))), k) ==
      if after[k] != Get(before, k) then x else DateColumn(rec, k)
  {
    ColumnAfterChanges(rec.data, before, after, k);
  }

  predicate UniqueIds(rs: seq<Record>) {
    forall i, j :: 0 <= i < j < |rs| ==> rs[i].id != rs[j].id
  }

  /** The position of the record with `id`, if any. */
  function IndexOf(rs: seq<Record>, id: string): (r: Option<nat>)
    ensures r.Some? ==> r.value < |rs| && rs[r.value].id == id
    ensures r.None? ==> forall i :: 0 <= i < |rs| ==> rs[i].id != id
  {
    if |rs| == 0 then None
    else if rs[0].id == id then Some(0)
    else match IndexOf(rs[1..], id)
      case None => None
      case Some(i) => Some(i + 1)
  }

  /** With unique ids, the record at position `i` is the one found by its id. */
  lemma IndexOfUnique(rs: seq<Record>, i: nat)
    requires UniqueIds(rs) && i < |rs|
    ensures IndexOf(rs, rs[i].id) == Some(i)
  {
  }

  /** The records after `update` of the record with `id` by `clause`. */
  function UpdateIn(rs: seq<Record>, id: string, clause: Row): seq<Record> {
    seq(|rs|, i requires 0 <= i < |rs| =>
      if rs[i].id == id then Record(id, Apply(rs[i].data, Defined(clause))) else rs[i])
  }

  /** The records whose id is not in `ids`, in their order. */
  function Without(rs: seq<Record>, ids: set<string>): (r: seq<Record>)
    ensures forall x :: x in r <==> x in rs && x.id !in ids
    ensures |r| <= |rs|
  {
    if |rs| == 0 then []
    else (if rs[0].id in ids then [] else [rs[0]]) + Without(rs[1..], ids)
  }

  /** The records whose id is in `ids`, in their order. */
  function Within(rs: seq<Record>, ids: set<string>): (r: seq<Record>)
    ensures forall x :: x in r <==> x in rs && x.id in ids
    ensures |r| + |Without(rs, ids)| == |rs|
  {
    if |rs| == 0 then []
    else (if rs[0].id in ids then [rs[0]] else []) + Within(rs[1..], ids)
  }

  lemma {:induction false} WithinKeepsUnique(rs: seq<Record>, ids: set<string>)
    requires UniqueIds(rs)
    ensures UniqueIds(Within(rs, ids))
  {
    if |rs| > 0 {
      assert UniqueIds(rs[1..]) by {
        forall i, j | 0 <= i < j < |rs[1..]| ensures rs[1..][i].id != rs[1..][j].id {
          assert rs[1..][i] == rs[i + 1] && rs[1..][j] == rs[j + 1];
        }
      }
      WithinKeepsUnique(rs[1..], ids);
      var tail := Within(rs[1..], ids);
      if rs[0].id in ids {
        forall j | 0 <= j < |tail| ensures rs[0].id != tail[j].id {
          assert tail[j] in rs[1..];
          var k :| 0 <= k < |rs[1..]| && rs[1..][k] == tail[j];
          assert rs[k + 1] == tail[j];
        }
        assert Within(rs, ids) == [rs[0]] + tail;
      } else {
        assert Within(rs, ids) == tail;
      }
    }
  }

  lemma {:induction false} WithoutKeepsUnique(rs: seq<Record>, ids: set<string>)
    requires UniqueIds(rs)
    ensures UniqueIds(Without(rs, ids))
  {
    if |rs| > 0 {
      assert UniqueIds(rs[1..]) by {
        forall i, j | 0 <= i < j < |rs[1..]| ensures rs[1..][i].id != rs[1..][j].id {
          assert rs[1..][i] == rs[i + 1] && rs[1..][j] == rs[j + 1];
        }
      }
      WithoutKeepsUnique(rs[1..], ids);
      var tail := Without(rs[1..], ids);
      if rs[0].id !in ids {
        forall j | 0 <= j < |tail| ensures rs[0].id != tail[j].id {
          assert tail[j] in rs[1..];
          var k :| 0 <= k < |rs[1..]| && rs[1..][k] == tail[j];
          assert rs[k + 1] == tail[j];
        }
        assert Without(rs, ids) == [rs[0]] + tail;
      } else {
        assert Without(rs, ids) == tail;
      }
    }
  }

  /** Records with distinct ids drawn from `ids` are at most `|ids|` many. */
  lemma {:induction false} DistinctIdsBound(rs: seq<Record>, ids: set<string>)
    requires UniqueIds(rs)
    requires forall i :: 0 <= i < |rs| ==> rs[i].id in ids
    ensures |rs| <= |ids|
  {
    if |rs| > 0 {
      var rest := ids - {rs[0].id};
      forall i | 0 <= i < |rs[1..]| ensures rs[1..][i].id in rest {
        assert rs[1..][i] == rs[i + 1];
      }
      DistinctIdsBound(rs[1..], rest);
    }
  }

  /** A sequence of ids names at most as many distinct ids as it is long. */
  lemma {:induction false} IdSetBound(ids: seq<string>)
    ensures |set x | x in ids| <= |ids|
  {
    if |ids| > 0 {
      IdSetBound(ids[1..]);
      assert (set x | x in ids) == (set x | x in ids[1..]) + {ids[0]};
    }
  }

  /** How `findMany` orders its result. */
  datatype Direction = Asc | Desc
  datatype Order = Unordered | By(column: string, dir: Direction)

  /** A `where` clause. An equality against `undefined` filters nothing. */
  datatype Where =
    | Any
    | Equals(column: string, value: Value)
    | ContainsInsensitive(column: string, needle: string)
    | AllOf(left: Where, right: Where)
    | AnyOf(left: Where, right: Where)

  predicate Matches(w: Where, rec: Record) {
    match w
    case Any => true
    case Equals(c, v) => v == Undefined || Column(rec, c) == v
    case ContainsInsensitive(c, n) =>
      Column(rec, c).Str? && Contains(ToLower(Column(rec, c).s), ToLower(n))
    case AllOf(a, b) => Matches(a, rec) && Matches(b, rec)
    case AnyOf(a, b) => Matches(a, rec) || Matches(b, rec)
  }

  /** The records a `where` clause selects, in table order. */
  function Filter(rs: seq<Record>, w: Where): (r: seq<Record>)
    ensures |r| <= |rs|
    ensures forall x :: x in r <==> x in rs && Matches(w, x)
  {
    if |rs| == 0 then []
    else (if Matches(w, rs[0]) then [rs[0]] else []) + Filter(rs[1..], w)
  }
  /** Filtering keeps ids unique. */
  lemma {:induction false} FilterKeepsUnique(rs: seq<Record>, w: Where)
    requires UniqueIds(rs)
    ensures UniqueIds(Filter(rs, w))
  {
    if |rs| > 0 {
      FilterKeepsUnique(rs[1..], w);
      var tail := Filter(rs[1..], w);
      forall j | 0 <= j < |tail| ensures tail[j].id != rs[0].id {
        assert tail[j] in rs[1..];
        var m :| 0 <= m < |rs[1..]| && rs[1..][m] == tail[j];
        assert rs[m + 1] == tail[j];
      }
    }
  }


  /** A total preorder on column values: numbers by value, strings by code
      units, and values of different kinds by kind. */
  function Rank(v: Value): nat {
    match v
    case Null => 0
    case Bool(_) => 1
    case Num(_) => 2
    case Str(_) => 3
    case Undefined => 4
  }

  predicate LexLe(a: string, b: string)
    decreases |a|
  {
    |a| == 0 || (|b| > 0 && (a[0] < b[0] || (a[0] == b[0] && LexLe(a[1..], b[1..]))))
  }

  predicate ValueLe(a: Value, b: Value) {
    if Rank(a) != Rank(b) then Rank(a) < Rank(b)
    else match a
      case Num(x) => x <= b.n
      case Str(x) => LexLe(x, b.s)
      case Bool(x) => !x || b.b
      case _ => true
  }

  lemma {:induction false} LexLeTotal(a: string, b: string)
    ensures LexLe(a, b) || LexLe(b, a)
    decreases |a|
  {
    if |a| > 0 && |b| > 0 && a[0] == b[0] {
      LexLeTotal(a[1..], b[1..]);
    }
  }

  lemma {:induction false} LexLeTransitive(a: string, b: string, c: string)
    requires LexLe(a, b) && LexLe(b, c)
    ensures LexLe(a, c)
    decreases |a|
  {
    if |a| > 0 && a[0] == b[0] && b[0] == c[0] {
      LexLeTransitive(a[1..], b[1..], c[1..]);
    }
  }

  lemma ValueLeTotal(a: Value, b: Value)
    ensures ValueLe(a, b) || ValueLe(b, a)
  {
    if a.Str? && b.Str? {
      LexLeTotal(a.s, b.s);
    }
  }

  lemma ValueLeTransitive(a: Value, b: Value, c: Value)
    requires ValueLe(a, b) && ValueLe(b, c)
    ensures ValueLe(a, c)
  {
    if a.Str? && b.Str? && c.Str? {
      LexLeTransitive(a.s, b.s, c.s);
    }
  }

  /** `x` may come before `y` under `order`. */
  predicate Before(order: Order, x: Record, y: Record) {
    match order
    case Unordered => true
    case By(c, Asc) => ValueLe(Column(x, c), Column(y, c))
    case By(c, Desc) => ValueLe(Column(y, c), Column(x, c))
  }

  lemma BeforeTotal(order: Order, x: Record, y: Record)
    ensures Before(order, x, y) || Before(order, y, x)
  {
    if order.By? {
      ValueLeTotal(Column(x, order.column), Column(y, order.column));
    }
  }

  lemma BeforeTransitive(order: Order, x: Record, y: Record, z: Record)
    requires Before(order, x, y) && Before(order, y, z)
    ensures Before(order, x, z)
  {
    if order.By? {
      var c := order.column;
      if order.dir == Asc {
        ValueLeTransitive(Column(x, c), Column(y, c), Column(z, c));
      } else {
        ValueLeTransitive(Column(z, c), Column(y, c), Column(x, c));
      }
    }
  }

  predicate SortedBy(order: Order, rs: seq<Record>) {
    forall i, j :: 0 <= i < j < |rs| ==> Before(order, rs[i], rs[j])
  }

  /** Puts `x` after every record that may come before it. */
  function Insert(order: Order, x: Record, rs: seq<Record>): seq<Record>
  {
    if |rs| == 0 then [x]
    else if Before(order, rs[0], x) then [rs[0]] + Insert(order, x, rs[1..])
    else [x] + rs
  }

  lemma {:induction false} InsertKeeps(order: Order, x: Record, rs: seq<Record>)
    ensures multiset(Insert(order, x, rs)) == multiset(rs) + multiset{x}
  {
    if |rs| > 0 && Before(order, rs[0], x) {
      InsertKeeps(order, x, rs[1..]);
      assert rs == [rs[0]] + rs[1..];
    }
  }

  lemma SortedTail(order: Order, rs: seq<Record>)
    requires |rs| > 0 && SortedBy(order, rs)
    ensures SortedBy(order, rs[1..])
  {
    forall i, j | 0 <= i < j < |rs[1..]| ensures Before(order, rs[1..][i], rs[1..][j]) {
      assert rs[1..][i] == rs[i + 1] && rs[1..][j] == rs[j + 1];
    }
  }

  lemma SortedCons(order: Order, h: Record, t: seq<Record>)
    requires SortedBy(order, t) && forall j :: 0 <= j < |t| ==> Before(order, h, t[j])
    ensures SortedBy(order, [h] + t)
  {
    var r := [h] + t;
    forall i, j | 0 <= i < j < |r| ensures Before(order, r[i], r[j]) {
      assert r[j] == t[j - 1];
      if i > 0 {
        assert r[i] == t[i - 1];
      }
    }
  }

  /** Every record of `Insert(order, x, rs)` is `x` or one of `rs`. */
  lemma InsertFrom(order: Order, x: Record, rs: seq<Record>, j: nat)
    requires j < |Insert(order, x, rs)|
    ensures Insert(order, x, rs)[j] == x || exists k :: 0 <= k < |rs| && rs[k] == Insert(order, x, rs)[j]
  {
    InsertKeeps(order, x, rs);
    var y := Insert(order, x, rs)[j];
    assert y in multiset(Insert(order, x, rs));
    if y != x {
      assert y in multiset(rs);
      assert y in rs;
    }
  }

  lemma {:induction false} InsertSorted(order: Order, x: Record, rs: seq<Record>)
    requires SortedBy(order, rs)
    ensures SortedBy(order, Insert(order, x, rs))
  {
    if |rs| == 0 {
    } else if Before(order, rs[0], x) {
      SortedTail(order, rs);
      InsertSorted(order, x, rs[1..]);
      var tail := Insert(order, x, rs[1..]);
      forall j | 0 <= j < |tail| ensures Before(order, rs[0], tail[j]) {
        InsertFrom(order, x, rs[1..], j);
        if tail[j] != x {
          var k :| 0 <= k < |rs[1..]| && rs[1..][k] == tail[j];
          assert rs[k + 1] == tail[j];
        }
      }
      SortedCons(order, rs[0], tail);
    } else {
      BeforeTotal(order, rs[0], x);
      forall j | 0 <= j < |rs| ensures Before(order, x, rs[j]) {
        if j > 0 {
          BeforeTransitive(order, x, rs[0], rs[j]);
        }
      }
      SortedCons(order, x, rs);
    }
  }

  /** `orderBy`: a stable insertion sort, so ties keep table order. */
  function SortBy(order: Order, rs: seq<Record>): (r: seq<Record>)
  {
    if |rs| == 0 then [] else Insert(order, rs[|rs| - 1], SortBy(order, rs[..|rs| - 1]))
  }

  /** The ordered result holds the same records, in the requested order. */
  lemma {:induction false} SortBySortsAndKeeps(order: Order, rs: seq<Record>)
    ensures SortedBy(order, SortBy(order, rs))
    ensures multiset(SortBy(order, rs)) == multiset(rs)
  {
    if |rs| > 0 {
      SortBySortsAndKeeps(order, rs[..|rs| - 1]);
      InsertSorted(order, rs[|rs| - 1], SortBy(order, rs[..|rs| - 1]));
      InsertKeeps(order, rs[|rs| - 1], SortBy(order, rs[..|rs| - 1]));
      assert rs == rs[..|rs| - 1] + [rs[|rs| - 1]];
    }
  }

  /** `skip`/`take`: a negative skip is refused; a negative take counts
      from the end of the ordered result; no take means everything. */
  function Page(rs: seq<Record>, skip: int, take: Option<int>): (r: Result<seq<Record>>)
    ensures skip < 0 <==> r.Err?
    ensures r.Ok? && take.Some? && take.value >= 0 ==> |r.value| <= take.value
    ensures r.Ok? && take.Some? && take.value < 0 ==> |r.value| <= -take.value
    ensures r.Ok? && take.None? ==> r.value == (if skip <= |rs| then rs[skip..] else [])
    ensures r.Ok? && take.Some? && take.value >= 0 && skip + take.value <= |rs| ==> r.value == rs[skip..skip + take.value]
  {
    if skip < 0 then Err("Argument skip must be a non-negative integer")
    else match take
      case None => Ok(if skip <= |rs| then rs[skip..] else [])
      case Some(t) =>
        if t >= 0 then
          var lo := if skip <= |rs| then skip else |rs|;
          var hi := if lo + t <= |rs| then lo + t else |rs|;
          Ok(rs[lo..hi])
        else
          var hi := if skip <= |rs| then |rs| - skip else 0;
          var lo := if hi + t >= 0 then hi + t else 0;
          Ok(rs[lo..hi])
  }

  /** A page is a run of consecutive records of what it pages. */
  lemma PageIsSlice(rs: seq<Record>, skip: int, take: Option<int>)
    requires Page(rs, skip, take).Ok?
    ensures exists lo, hi :: 0 <= lo <= hi <= |rs| && Page(rs, skip, take).value == rs[lo..hi]
  {
    var p := Page(rs, skip, take).value;
    match take
    case None =>
      if skip <= |rs| {
        assert p == rs[skip..|rs|];
      } else {
        assert p == rs[0..0];
      }
    case Some(t) =>
  }

  /** A page of a filtered, ordered listing holds only stored records that
      match the filter, keeps the order, and is no longer than the number
      of matching records. */
  lemma PageOfListing(rs: seq<Record>, w: Where, order: Order, skip: int, take: Option<int>)
    requires Page(SortBy(order, Filter(rs, w)), skip, take).Ok?
    ensures var page := Page(SortBy(order, Filter(rs, w)), skip, take).value;
      (forall x :: x in page ==> x in rs && Matches(w, x)) &&
      SortedBy(order, page) && |page| <= |Filter(rs, w)|
  {
    var kept := Filter(rs, w);
    var sorted := SortBy(order, kept);
    SortBySortsAndKeeps(order, kept);
    PageIsSlice(sorted, skip, take);
    var lo, hi :| 0 <= lo <= hi <= |sorted| && Page(sorted, skip, take).value == sorted[lo..hi];
    SliceOfSorted(order, sorted, lo, hi);
    forall x | x in sorted[lo..hi] ensures x in kept {
      assert x in multiset(sorted);
    }
    assert |sorted| == |multiset(kept)|;
  }

  /** A run of consecutive records of an ordered sequence is ordered, and
      holds only records of the sequence. */
  lemma SliceOfSorted(order: Order, s: seq<Record>, lo: int, hi: int)
    requires 0 <= lo <= hi <= |s| && SortedBy(order, s)
    ensures SortedBy(order, s[lo..hi])
    ensures forall x :: x in s[lo..hi] ==> x in s
  {
    var page := s[lo..hi];
    forall i, j | 0 <= i < j < |page| ensures Before(order, page[i], page[j]) {
      assert page[i] == s[lo + i] && page[j] == s[lo + j];
    }
  }

  /** No two records share an email. */
  ghost predicate UniqueEmails(rs: seq<Record>) {
    forall i, j :: 0 <= i < j < |rs| && Column(rs[i], "email").Str? ==> Column(rs[i], "email") != Column(rs[j], "email")
  }

  /** Appending a record whose email no stored record has keeps emails
      unique. */
  lemma CreateKeepsEmailsUnique(rs: seq<Record>, id: string, data: Row, email: string)
    requires forall i :: 0 <= i < |rs| ==> Column(rs[i], "email") != Str(email)
    requires "email" in data && data["email"] == Str(email)
    ensures UniqueEmails(rs) ==> UniqueEmails(rs + [Record(id, data)])
  {
    var rs' := rs + [Record(id, data)];
    if UniqueEmails(rs) {
      forall i, j | 0 <= i < j < |rs'| && Column(rs'[i], "email").Str?
        ensures Column(rs'[i], "email") != Column(rs'[j], "email")
      {
        assert rs'[i] == rs[i];
        if j == |rs| {
          assert Column(rs'[j], "email") == Str(email);
        } else {
          assert rs'[j] == rs[j];
        }
      }
    }
  }

  /** Filtering records none of which matches, plus one that does, finds
      just that one. */
  lemma {:induction false} FilterFindsOnlyLast(rs: seq<Record>, rec: Record, w: Where)
    requires forall i :: 0 <= i < |rs| ==> !Matches(w, rs[i])
    requires Matches(w, rec)
    ensures Filter(rs + [rec], w) == [rec]
  {
    if |rs| == 0 {
      assert rs + [rec] == [rec];
      assert [rec][1..] == [];
    } else {
      assert (rs + [rec])[0] == rs[0];
      assert (rs + [rec])[1..] == rs[1..] + [rec];
      assert forall i :: 0 <= i < |rs[1..]| ==> rs[1..][i] == rs[i + 1];
      FilterFindsOnlyLast(rs[1..], rec, w);
    }
  }

  class Table {
    var records: seq<Record>
    var next: nat

    /** Ids are unique and no id the counter has yet to hand out is in use. */
    ghost predicate Valid()
      reads this
    {
      UniqueIds(records) &&
      forall i, n :: 0 <= i < |records| && next <= n ==> records[i].id != IdOf(n)
    }

    constructor()
      ensures Valid() && records == [] && next == 0
    {
      records := [];
      next := 0;
    }

    /** `findUnique({ where: { id } })`. */
    function FindUnique(id: string): (r: Option<Record>)
      reads this
      ensures r.Some? ==> r.value in records && r.value.id == id
      ensures r.None? ==> forall i :: 0 <= i < |records| ==> records[i].id != id
    {
      match IndexOf(records, id)
      case Some(i) => Some(records[i])
      case None => None
    }

    /** `create({ data })`: a new record with a fresh id, appended. */
    method Create(data: Row) returns (rec: Record)
      requires Valid()
      modifies this
      ensures Valid()
      ensures rec == Record(IdOf(old(next)), Defined(data))
      ensures forall i :: 0 <= i < |old(records)| ==> old(records)[i].id != rec.id
      ensures records == old(records) + [rec] && next == old(next) + 1
    {
      rec := Record(IdOf(next), Defined(data));
      forall n | next + 1 <= n ensures rec.id != IdOf(n) {
        IdOfInjective(next, n);
      }
      records := records + [rec];
      next := next + 1;
    }

    /** `update({ where: { id }, data })`: fails when no record has the id. */
    method Update(id: string, clause: Row) returns (r: Result<Record>)
      requires Valid()
      modifies this
      ensures Valid() && next == old(next)
      ensures old(FindUnique(id)).None? ==> r.Err? && records == old(records)
      ensures old(FindUnique(id)).Some? ==>
        r == Ok(Record(id, Apply(old(FindUnique(id)).value.data, Defined(clause)))) &&
        records == UpdateIn(old(records), id, clause)
    ensures old(FindUnique(id)).Some? ==> FindUnique(id) == Some(r.value)
    {
      match IndexOf(records, id)
      case None =>
        r := Err("Record to update not found.");
      case Some(i) =>
        var rec := Record(id, Apply(records[i].data, Defined(clause)));
        records := UpdateIn(records, id, clause);
        assert records[i] == rec;
        IndexOfUnique(records, i);
        r := Ok(rec);
    }

    /** `delete({ where: { id } })`: fails when no record has the id. */
    method Delete(id: string) returns (r: Result<Record>)
      requires Valid()
      modifies this
      ensures Valid() && next == old(next)
      ensures old(FindUnique(id)).None? ==> r.Err? && records == old(records)
      ensures old(FindUnique(id)).Some? ==> r == Ok(old(FindUnique(id)).value) && records == Without(old(records), {id})
    {
      match IndexOf(records, id)
      case None =>
        r := Err("Record to delete does not exist.");
      case Some(i) =>
        r := Ok(records[i]);
        WithoutKeepsUnique(records, {id});
        records := Without(records, {id});
    }

    /** `deleteMany({ where: { id: { in: ids } } })`: removes every record
        whose id is listed and returns how many went, never more than the
        number of ids. */
    method DeleteMany(ids: seq<string>) returns (count: nat)
      requires Valid()
      modifies this
      ensures Valid() && next == old(next)
      ensures records == Without(old(records), set x | x in ids)
      ensures count == |old(records)| - |records|
      ensures count <= |ids|
    {
      var s := set x | x in ids;
      WithinKeepsUnique(records, s);
      WithoutKeepsUnique(records, s);
      var gone := Within(records, s);
      forall i | 0 <= i < |gone| ensures gone[i].id in s {
        assert gone[i] in gone;
      }
      DistinctIdsBound(gone, s);
      IdSetBound(ids);
      count := |gone|;
      records := Without(records, s);
    }

    /** `findMany({ where, orderBy, skip, take })`. */
    function FindMany(w: Where, order: Order, skip: int, take: Option<int>): Result<seq<Record>>
      reads this
    {
      Page(SortBy(order, Filter(records, w)), skip, take)
    }

    /** `count({ where })`. */
    function Count(w: Where): (n: nat)
      reads this
      ensures n <= |records|
    {
      |Filter(records, w)|
    }
  }

  /** `save` creates exactly when the entity's id is '0'. */
  datatype SaveRoute = CreatePath | UpdatePath

  function RouteOf(id: string): (r: SaveRoute)
    ensures r == CreatePath <==> id == "0"
  {
    if id == "0" then CreatePath else UpdatePath
  }

  /** The base `update` on the store: a clean entity (or one without an
      update clause) writes nothing and is returned as it is (`Ok(None)`);
      otherwise only its changed columns are written to its record, whose
      new contents come back (`Ok(Some(rec))`). */
  method UpdateEntity(table: Table, id: string, tracker: Tracker, state: Row) returns (r: Result<Option<Record>>)
    requires table.Valid()
    modifies table
    ensures table.Valid() && table.next == old(table.next)
    ensures !tracker.IsDirty(state) ==> r == Ok(None) && table.records == old(table.records)
    ensures tracker.IsDirty(state) && old(table.FindUnique(id)).None? ==>
      r.Err? && table.records == old(table.records)
    ensures tracker.IsDirty(state) && old(table.FindUnique(id)).Some? ==>
      r == Ok(Some(Record(id, Apply(old(table.FindUnique(id)).value.data, tracker.ChangesOf(state))))) &&
      table.records == UpdateIn(old(table.records), id, tracker.ChangesOf(state))
    ensures old(table.FindUnique(id)).Some? ==>
      table.FindUnique(id) == Some(Record(id, Apply(old(table.FindUnique(id)).value.data, tracker.ChangesOf(state))))
  {
    if !tracker.IsDirty(state) {
      if table.FindUnique(id).Some? {
        assert tracker.ChangesOf(state) == map[];
        assert table.FindUnique(id).value.data + tracker.ChangesOf(state) == table.FindUnique(id).value.data;
      }
      return Ok(None);
    }
    var clause := tracker.UpdateClause(state);
    if clause.None? {
      return Ok(None);
    }
    DefinedChanges(tracker.Baseline(state), state);
    var u := table.Update(id, clause.value);
    match u
    case Err(e) => r := Err(e);
    case Ok(rec) => r := Ok(Some(rec));
  }

  /** A change set never holds `undefined`, so the store writes it whole. */
  lemma DefinedChanges(original: Row, current: Row)
    ensures Defined(Changes(original, current)) == Changes(original, current)
  {
  }

  /** The base `createMany`: one `create` per input, in input order, and
      the created records are returned in that order. */
  method CreateAll(table: Table, inputs: seq<Row>) returns (created: seq<Record>)
    requires table.Valid()
    modifies table
    ensures table.Valid()
    ensures |created| == |inputs|
    ensures forall i :: 0 <= i < |inputs| ==> created[i].data == Defined(inputs[i])
    ensures table.records == old(table.records) + created
    ensures UniqueIds(table.records)
  {
    created := [];
    var k := 0;
    while k < |inputs|
      invariant 0 <= k <= |inputs|
      invariant table.Valid()
      invariant |created| == k
      invariant forall i :: 0 <= i < k ==> created[i].data == Defined(inputs[i])
      invariant table.records == old(table.records) + created
    {
      var rec := table.Create(inputs[k]);
      created := created + [rec];
      k := k + 1;
    }
  }
}
