/**
 * Keyset pagination over `(created_at, id)` descending, as `app/repositories/conversation.py` and
 * `app/repositories/run_log.py` both do it, and walks that follow `next_cursor` while the table
 * changes between pages.
 */
module Keyset {
  import opened Wrappers

  /**
   * The microseconds `datetime.fromtimestamp` turns into a date: from year 1 through year 9999,
   * after the division by 1_000_000 has rounded to a double.
   */
  const FIRST_INSTANT := -62_135_596_800_000_003
  const LAST_INSTANT := 253_402_300_799_999_984

  /** The microseconds whose seconds fit a 64-bit `time_t`, after the same rounding. */
  const FIRST_TIME := -((0x8000_0000_0000_0000 + 1024) * 1_000_000)
  const LAST_TIME := (0x8000_0000_0000_0000 - 512) * 1_000_000 - 1

  type Instant = t: int | FIRST_INSTANT <= t <= LAST_INSTANT witness 0

  /** Creation time in microseconds, then the id that breaks ties. */
  datatype Key = Key(createdAt: Instant, id: nat)

  /**
   * A row of either table: its key never changes, the columns the listings filter on may. The
   * owner of a conversation is its user, that of a run log its tenant.
   */
  datatype Row = Row(key: Key, owner: string, agent: string, conversation: string, status: string, deleted: bool)

  predicate Less(a: Key, b: Key) {
    a.createdAt < b.createdAt || (a.createdAt == b.createdAt && a.id < b.id)
  }

  /** No two rows share a key (the id is the table's primary key). */
  ghost predicate Keyed(rows: set<Row>) {
    forall a, b :: a in rows && b in rows && a.key == b.key ==> a == b
  }

  // ---------------------------------------------------------------- cursors

  /** How integers and ids are written and read back. */
  datatype Texts = Texts(
    showInt: int -> string, readInt: string -> Option<int>,
    showId: nat -> string, readId: string -> Option<nat>)

  /** Written numbers and ids are read back, and a written number holds no colon. */
  ghost predicate Faithful(x: Texts) {
    && (forall i :: x.readInt(x.showInt(i)) == Some(i) && ':' !in x.showInt(i))
    && (forall i: nat :: x.readId(x.showId(i)) == Some(i))
  }

  function EncodeCursor(x: Texts, key: Key): string {
    x.showInt(key.createdAt) + ":" + x.showId(key.id)
  }

  /** The text before the first colon and the text after it. */
  function Partition(s: string): (string, string) {
    if s == "" then ("", "")
    else if s[0] == ':' then ("", s[1..])
    else var (a, b) := Partition(s[1..]); ([s[0]] + a, b)
  }

  /** What reading a cursor comes to; an OverflowError is not among the errors the code catches. */
  datatype Decoded = Decoded(key: Key) | Malformed | Overflow

  function DecodeCursor(x: Texts, cursor: string): Decoded {
    var (timestamp, id) := Partition(cursor);
    match x.readInt(timestamp)
    case None => Malformed
    case Some(t) =>
      if !(FIRST_TIME <= t <= LAST_TIME) then Overflow
      else if !(FIRST_INSTANT <= t <= LAST_INSTANT) then Malformed
      else match x.readId(id)
           case None => Malformed
           case Some(i) => Decoded(Key(t, i))
  }

  lemma {:induction false} PartitionAtFirstColon(a: string, b: string)
    requires ':' !in a
    ensures Partition(a + ":" + b) == (a, b)
  {
    if a == "" {
      assert a + ":" + b == ":" + b;
    } else {
      assert (a + ":" + b)[0] == a[0] && (a + ":" + b)[1..] == a[1..] + ":" + b;
      PartitionAtFirstColon(a[1..], b);
      assert [a[0]] + a[1..] == a;
    }
  }

  /** A cursor handed out is read back as the key it stands for. */
  lemma CursorRoundTrip(x: Texts, key: Key)
    requires Faithful(x)
    ensures DecodeCursor(x, EncodeCursor(x, key)) == Decoded(key)
  {
    PartitionAtFirstColon(x.showInt(key.createdAt), x.showId(key.id));
  }

  /** How the listings read and write cursors. */
  datatype Codec = Codec(read: string -> Decoded, write: Key -> string)

  /** A cursor that was written is read back. */
  ghost predicate Sound(c: Codec) {
    forall key :: c.read(c.write(key)) == Decoded(key)
  }

  function TextCodec(x: Texts): Codec {
    Codec(s => DecodeCursor(x, s), key => EncodeCursor(x, key))
  }

  lemma TextCodecIsSound(x: Texts)
    requires Faithful(x)
    ensures Sound(TextCodec(x))
  {
    forall key ensures TextCodec(x).read(TextCodec(x).write(key)) == Decoded(key) {
      CursorRoundTrip(x, key);
    }
  }

  // ---------------------------------------------------------------- one page

  ghost predicate IsNewest(rows: set<Row>, m: Row) {
    m in rows && forall r :: r in rows ==> r == m || Less(r.key, m.key)
  }

  lemma {:induction false} NewestExists(rows: set<Row>) returns (m: Row)
    requires rows != {} && Keyed(rows)
    ensures IsNewest(rows, m)
    decreases rows
  {
    m :| m in rows;
    if rows != {m} {
      var other := NewestExists(rows - {m});
      if Less(m.key, other.key) {
        m := other;
      }
    }
  }

  function Newest(rows: set<Row>): (m: Row)
    requires rows != {} && Keyed(rows)
    ensures IsNewest(rows, m)
  {
    assert exists m :: IsNewest(rows, m) by { var m := NewestExists(rows); }
    var m :| m in rows && forall r :: r in rows ==> r == m || Less(r.key, m.key);
    m
  }

  /** ORDER BY created_at DESC, id DESC LIMIT n. */
  function Top(rows: set<Row>, n: nat): (page: seq<Row>)
    requires Keyed(rows)
    ensures |page| == if n <= |rows| then n else |rows|
    ensures forall r :: r in page ==> r in rows
  {
    if n == 0 || rows == {} then []
    else [Newest(rows)] + Top(rows - {Newest(rows)}, n - 1)
  }

  /** The rows a query selects: those that match and come strictly after the cursor. */
  function Selected(rows: set<Row>, matches: Row -> bool, bound: Option<Key>): set<Row> {
    set r | r in rows && matches(r) && (bound.None? || Less(r.key, bound.value))
  }

  /** A cursor that can be read, or none. */
  predicate Readable(c: Codec, cursor: Option<string>) {
    cursor.Some? ==> c.read(cursor.value).Decoded?
  }

  function Bound(c: Codec, cursor: Option<string>): Option<Key> {
    if cursor.Some? && c.read(cursor.value).Decoded? then Some(c.read(cursor.value).key) else None
  }

  /** The page out of the rows fetched, one beyond it included, and the cursor of the next page. */
  function CutPage(c: Codec, fetched: seq<Row>, limit: nat): (seq<Row>, Option<string>)
    requires limit >= 1
  {
    if |fetched| > limit then (fetched[..limit], Some(c.write(fetched[limit - 1].key))) else (fetched, None)
  }

  /** One page and the cursor of the next, if there is one. */
  function Page(c: Codec, rows: set<Row>, matches: Row -> bool, limit: nat, cursor: Option<string>)
    : (seq<Row>, Option<string>)
    requires Keyed(rows) && limit >= 1
  {
    if !Readable(c, cursor) then ([], None)
    else CutPage(c, Top(Selected(rows, matches, Bound(c, cursor)), limit + 1), limit)
  }

  /** What a listing answers: a page and its next cursor, or None where it raises. */
  type Listing = Option<(seq<Row>, Option<string>)>

  function List(c: Codec, rows: set<Row>, matches: Row -> bool, limit: nat, cursor: Option<string>): Listing
    requires Keyed(rows) && limit >= 1
  {
    if cursor.Some? && c.read(cursor.value).Overflow? then None
    else Some(Page(c, rows, matches, limit, cursor))
  }

  /**
   * A listing raises if and only if its cursor starts with an integer whose seconds do not fit a
   * `time_t`; every other cursor that cannot be read gives an empty page, whatever the table holds.
   */
  lemma UnreadableCursor(x: Texts, rows: set<Row>, matches: Row -> bool, limit: nat, cursor: string)
    requires Keyed(rows) && limit >= 1
    ensures var (c, t) := (TextCodec(x), x.readInt(Partition(cursor).0));
            && (List(c, rows, matches, limit, Some(cursor)).None? <==>
                  t.Some? && !(-9_223_372_036_854_776_832_000_000 <= t.value <= 9_223_372_036_854_775_295_999_999))
            && (!Readable(c, Some(cursor)) && (t.None? || FIRST_TIME <= t.value <= LAST_TIME) ==>
                  List(c, rows, matches, limit, Some(cursor)) == Some(([], None)))
            && (Readable(c, Some(cursor)) ==>
                  && t.Some? && -62_135_596_800_000_003 <= t.value <= 253_402_300_799_999_984
                  && x.readId(Partition(cursor).1).Some?)
  {
    assert FIRST_TIME < FIRST_INSTANT < LAST_INSTANT < LAST_TIME;
    assert TextCodec(x).read(cursor) == DecodeCursor(x, cursor);
  }

  // ---------------------------------------------------------------- what a page holds

  ghost predicate Descending(page: seq<Row>) {
    forall i, j :: 0 <= i < j < |page| ==> Less(page[j].key, page[i].key)
  }

  lemma {:induction false} TopDescends(rows: set<Row>, n: nat)
    requires Keyed(rows)
    ensures Descending(Top(rows, n))
    decreases n
  {
    if n != 0 && rows != {} {
      TopDescends(rows - {Newest(rows)}, n - 1);
    }
  }

  function Below(rows: set<Row>, key: Key): set<Row> {
    set r | r in rows && Less(r.key, key)
  }

  /** What the first `n` rows leave over: exactly the rows below the last of them. */
  lemma {:induction false} TopSplits(rows: set<Row>, n: nat)
    requires Keyed(rows) && 1 <= n <= |rows|
    ensures var page := Top(rows, n);
            && |Below(rows, page[n - 1].key)| == |rows| - n
            && forall r :: r in rows ==> r in page || Less(r.key, page[n - 1].key)
    decreases n
  {
    var m := Newest(rows);
    var page := Top(rows, n);
    if n == 1 {
      assert Below(rows, m.key) == rows - {m};
    } else {
      TopSplits(rows - {m}, n - 1);
      assert page[1..] == Top(rows - {m}, n - 1);
      var last := page[n - 1];
      assert last == page[1..][n - 2] && last in rows - {m};
      assert Below(rows, last.key) == Below(rows - {m}, last.key);
    }
  }

  lemma {:induction false} TopPrefix(rows: set<Row>, n: nat)
    requires Keyed(rows) && |rows| > n
    ensures Top(rows, n + 1)[..n] == Top(rows, n)
    decreases n
  {
    if n != 0 {
      var m := Newest(rows);
      TopPrefix(rows - {m}, n - 1);
      assert Top(rows, n + 1)[..n] == [m] + Top(rows - {m}, n)[..n - 1];
    }
  }

  lemma {:induction false} TopAll(rows: set<Row>, n: nat)
    requires Keyed(rows) && |rows| <= n
    ensures forall r :: r in rows ==> r in Top(rows, n)
    decreases n
  {
    if n != 0 && rows != {} {
      TopAll(rows - {Newest(rows)}, n - 1);
    }
  }

  /** A final page: exactly the selected rows. */
  ghost predicate LastPage(selected: set<Row>, page: seq<Row>) {
    Descending(page) && |page| == |selected| && forall r :: r in page <==> r in selected
  }

  /** A full page: its rows are selected, and every other selected row lies below its last row. */
  ghost predicate FullPage(selected: set<Row>, page: seq<Row>, limit: nat) {
    && |page| == limit >= 1 && Descending(page)
    && (forall r :: r in page ==> r in selected)
    && |Below(selected, page[limit - 1].key)| == |selected| - limit
    && (forall r :: r in selected ==> r in page || Less(r.key, page[limit - 1].key))
  }

  lemma TopIsLastPage(selected: set<Row>, limit: nat)
    requires Keyed(selected) && |selected| <= limit
    ensures LastPage(selected, Top(selected, limit + 1))
  {
    TopDescends(selected, limit + 1);
    TopAll(selected, limit + 1);
  }

  lemma FirstRowsAreFullPage(selected: set<Row>, limit: nat)
    requires Keyed(selected) && |selected| > limit >= 1
    ensures FullPage(selected, Top(selected, limit), limit)
  {
    TopDescends(selected, limit);
    TopSplits(selected, limit);
  }

  lemma TopIsFullPage(selected: set<Row>, limit: nat)
    requires Keyed(selected) && |selected| > limit >= 1
    ensures FullPage(selected, Top(selected, limit + 1)[..limit], limit)
  {
    FirstRowsAreFullPage(selected, limit);
    TopPrefix(selected, limit);
  }

  /** Row `a` was created later than `b`, or at the same time with the greater id. */
  predicate Newer(a: Row, b: Row) {
    a.key.createdAt > b.key.createdAt || (a.key.createdAt == b.key.createdAt && a.key.id > b.key.id)
  }

  ghost predicate NewestFirst(page: seq<Row>) {
    forall i, j :: 0 <= i < j < |page| ==> Newer(page[i], page[j])
  }

  /** The rows a listing may show: those that match and, after a cursor, were created before it. */
  function Eligible(rows: set<Row>, matches: Row -> bool, after: Option<Key>): set<Row> {
    set r | r in rows && matches(r) &&
      (after.Some? ==> r.key.createdAt < after.value.createdAt
                       || (r.key.createdAt == after.value.createdAt && r.key.id < after.value.id))
  }

  /** The `limit` newest of the eligible rows, newest first, or all of them if they are no more. */
  ghost predicate IsNewestPage(eligible: set<Row>, limit: nat, page: seq<Row>) {
    && |page| == (if |eligible| < limit then |eligible| else limit)
    && NewestFirst(page)
    && (forall r :: r in page ==> r in eligible)
    && (forall r :: r in eligible && r !in page ==> page != [] && Newer(page[|page| - 1], r))
  }

  /**
   * What a listing answers, in terms of the columns: nothing but an error for an overflowing cursor,
   * an empty page for a malformed one, and otherwise the newest eligible rows, with a cursor for the
   * last of them exactly when there are more.
   */
  ghost predicate Lists(c: Codec, rows: set<Row>, matches: Row -> bool, limit: nat, cursor: Option<string>,
                        listing: Listing) {
    if cursor.Some? && c.read(cursor.value).Overflow? then listing == None
    else if cursor.Some? && c.read(cursor.value).Malformed? then listing == Some(([], None))
    else
      var eligible := Eligible(rows, matches, if cursor.Some? then Some(c.read(cursor.value).key) else None);
      && listing.Some?
      && var (page, next) := listing.value;
         && IsNewestPage(eligible, limit, page)
         && (next.Some? <==> |eligible| > limit)
         && (next.Some? ==> page != [] && next == Some(c.write(page[|page| - 1].key)))
  }

  lemma LastIsNewest(selected: set<Row>, limit: nat, page: seq<Row>)
    requires LastPage(selected, page) && |selected| <= limit
    ensures IsNewestPage(selected, limit, page)
  {}

  lemma FullIsNewest(selected: set<Row>, limit: nat, page: seq<Row>)
    requires FullPage(selected, page, limit) && |selected| > limit
    ensures IsNewestPage(selected, limit, page)
  {}

  lemma ListListsNewest(c: Codec, rows: set<Row>, matches: Row -> bool, limit: nat, cursor: Option<string>)
    requires Keyed(rows) && limit >= 1
    ensures Lists(c, rows, matches, limit, cursor, List(c, rows, matches, limit, cursor))
  {
    if Readable(c, cursor) {
      var selected := Selected(rows, matches, Bound(c, cursor));
      assert selected == Eligible(rows, matches, Bound(c, cursor));
      var fetched := Top(selected, limit + 1);
      if |selected| <= limit {
        TopIsLastPage(selected, limit);
        LastIsNewest(selected, limit, fetched);
      } else {
        TopIsFullPage(selected, limit);
        FullIsNewest(selected, limit, fetched[..limit]);
      }
    }
  }

  /** One page: the matching rows after the cursor, newest first, and where the next page starts. */
  lemma PageFacts(c: Codec, rows: set<Row>, matches: Row -> bool, limit: nat, cursor: Option<string>)
    requires Sound(c) && Keyed(rows) && limit >= 1 && Readable(c, cursor)
    ensures List(c, rows, matches, limit, cursor) == Some(Page(c, rows, matches, limit, cursor))
    ensures IsNewestPage(Eligible(rows, matches, Bound(c, cursor)), limit, Page(c, rows, matches, limit, cursor).0)
    ensures var (page, next) := Page(c, rows, matches, limit, cursor);
            var selected := Selected(rows, matches, Bound(c, cursor));
            if |selected| <= limit then next.None? && LastPage(selected, page)
            else next.Some? && FullPage(selected, page, limit) && Bound(c, next) == Some(page[limit - 1].key)
  {
    var selected := Selected(rows, matches, Bound(c, cursor));
    ListListsNewest(c, rows, matches, limit, cursor);
    if |selected| <= limit {
      TopIsLastPage(selected, limit);
    } else {
      TopIsFullPage(selected, limit);
      var last := Top(selected, limit + 1)[limit - 1];
      assert c.read(c.write(last.key)) == Decoded(last.key);
    }
  }

  /** Selecting after the last row of a page leaves what lies below it. */
  lemma SelectedAfterPage(rows: set<Row>, matches: Row -> bool, bound: Option<Key>, last: Row)
    requires last in Selected(rows, matches, bound)
    ensures Selected(rows, matches, Some(last.key)) == Below(Selected(rows, matches, bound), last.key)
  {}

  // ---------------------------------------------------------------- the two repositories

  /** Add a WHERE clause to a statement. */
  function Where(stmt: set<Row>, keep: Row -> bool): (narrowed: set<Row>)
    ensures forall r :: r in narrowed <==> r in stmt && keep(r)
  {
    set r | r in stmt && keep(r)
  }

  /** Narrow a statement to the rows strictly after the cursor's row. */
  function After(stmt: set<Row>, before: Key): set<Row> {
    set r | r in stmt &&
      (r.key.createdAt < before.createdAt || (r.key.createdAt == before.createdAt && r.key.id < before.id))
  }

  method ListForUser(c: Codec, rows: set<Row>, user: string, agent: Option<string>, status: string,
                     limit: nat, cursor: Option<string>)
    returns (listing: Listing)
    requires Keyed(rows) && limit >= 1
    ensures Lists(c, rows,
                  (r: Row) => r.owner == user && !r.deleted && r.status == status
                              && (agent.Some? ==> r.agent == agent.value),
                  limit, cursor, listing)
  {
    var stmt := Where(rows, (r: Row) => r.owner == user && !r.deleted && r.status == status);
    if agent.Some? {
      stmt := Where(stmt, (r: Row) => r.agent == agent.value);
    }
    ghost var matches := (r: Row) => r.owner == user && !r.deleted && r.status == status
                                     && (agent.Some? ==> r.agent == agent.value);
    assert stmt == Selected(rows, matches, None);
    listing := FetchPage(c, rows, matches, stmt, limit, cursor);
  }

  datatype RunLogQuery = RunLogQuery(
    tenant: string, agent: Option<string>, conversation: Option<string>, status: Option<string>,
    fromDate: Option<int>, toDate: Option<int>)

  method ListForTenant(c: Codec, rows: set<Row>, q: RunLogQuery, limit: nat, cursor: Option<string>)
    returns (listing: Listing)
    requires Keyed(rows) && limit >= 1
    ensures Lists(c, rows,
                  (r: Row) => r.owner == q.tenant
                              && (q.agent.Some? ==> r.agent == q.agent.value)
                              && (q.conversation.Some? ==> r.conversation == q.conversation.value)
                              && (q.status.Some? ==> r.status == q.status.value)
                              && (q.fromDate.Some? ==> r.key.createdAt >= q.fromDate.value)
                              && (q.toDate.Some? ==> r.key.createdAt <= q.toDate.value),
                  limit, cursor, listing)
  {
    var stmt := Where(rows, (r: Row) => r.owner == q.tenant);
    if q.agent.Some? { stmt := Where(stmt, (r: Row) => r.agent == q.agent.value); }
    if q.conversation.Some? { stmt := Where(stmt, (r: Row) => r.conversation == q.conversation.value); }
    if q.status.Some? { stmt := Where(stmt, (r: Row) => r.status == q.status.value); }
    if q.fromDate.Some? { stmt := Where(stmt, (r: Row) => r.key.createdAt >= q.fromDate.value); }
    if q.toDate.Some? { stmt := Where(stmt, (r: Row) => r.key.createdAt <= q.toDate.value); }
    ghost var matches := (r: Row) => r.owner == q.tenant
                                     && (q.agent.Some? ==> r.agent == q.agent.value)
                                     && (q.conversation.Some? ==> r.conversation == q.conversation.value)
                                     && (q.status.Some? ==> r.status == q.status.value)
                                     && (q.fromDate.Some? ==> r.key.createdAt >= q.fromDate.value)
                                     && (q.toDate.Some? ==> r.key.createdAt <= q.toDate.value);
    assert stmt == Selected(rows, matches, None);
    listing := FetchPage(c, rows, matches, stmt, limit, cursor);
  }

  /** The tail both listings share: apply the cursor, order, fetch one row beyond the page. */
  method FetchPage(c: Codec, ghost rows: set<Row>, ghost matches: Row -> bool, filtered: set<Row>,
                   limit: nat, cursor: Option<string>)
    returns (listing: Listing)
    requires Keyed(rows) && limit >= 1 && filtered == Selected(rows, matches, None)
    ensures listing == List(c, rows, matches, limit, cursor)
    ensures Lists(c, rows, matches, limit, cursor, listing)
  {
    ListListsNewest(c, rows, matches, limit, cursor);
    var stmt := filtered;
    if cursor.Some? {
      var decoded := c.read(cursor.value);
      if decoded.Overflow? {
        return None;
      }
      if decoded.Malformed? {
        return Some(([], None));
      }
      stmt := After(stmt, decoded.key);
    }
    assert stmt == Selected(rows, matches, Bound(c, cursor));
    var fetched := Top(stmt, limit + 1);
    var hasMore := |fetched| > limit;
    var page := if hasMore then fetched[..limit] else fetched;
    var next := if hasMore then Some(c.write(page[|page| - 1].key)) else None;
    return Some((page, next));
  }

  // ---------------------------------------------------------------- walks

  /** `pages` are the pages met from `cursor` to the end, page `i` read from table `tables[i]`. */
  ghost predicate Walk(c: Codec, matches: Row -> bool, limit: nat, cursor: Option<string>,
                                tables: seq<set<Row>>, pages: seq<seq<Row>>)
    decreases |tables|
  {
    && limit >= 1 && |tables| == |pages| > 0 && Keyed(tables[0])
    && var (page, next) := Page(c, tables[0], matches, limit, cursor);
       && pages[0] == page
       && if next.None? then |pages| == 1 else Walk(c, matches, limit, next, tables[1..], pages[1..])
  }

  function Flat(pages: seq<seq<Row>>): seq<Row> {
    if pages == [] then [] else pages[0] + Flat(pages[1..])
  }

  lemma DescendingConcat(page: seq<Row>, rest: seq<Row>)
    requires page != [] && Descending(page) && Descending(rest)
    requires forall r :: r in rest ==> Less(r.key, page[|page| - 1].key)
    ensures Descending(page + rest)
  {
    forall i, j | 0 <= i < j < |page + rest|
      ensures Less((page + rest)[j].key, (page + rest)[i].key)
    {
      if j >= |page| {
        assert rest[j - |page|] in rest;
      }
    }
  }

  /** Every row of a walk matches and lies below the cursor it started from. */
  ghost predicate Selectable(matches: Row -> bool, bound: Option<Key>, flat: seq<Row>) {
    forall r :: r in flat ==> matches(r) && (bound.Some? ==> Less(r.key, bound.value))
  }

  /** A walk with a codec that can be trusted, from a cursor that can be read. */
  ghost predicate SoundWalk(c: Codec, matches: Row -> bool, limit: nat, cursor: Option<string>,
                            tables: seq<set<Row>>, pages: seq<seq<Row>>) {
    Sound(c) && Readable(c, cursor) && Walk(c, matches, limit, cursor, tables, pages)
  }

  /** Rows in strictly descending order, all of them matching and below the bound. */
  ghost predicate Ordered(matches: Row -> bool, bound: Option<Key>, flat: seq<Row>) {
    Descending(flat) && Selectable(matches, bound, flat)
  }

  /** How a walk goes on after its first page: it ends with all that is selected, or below its last row. */
  lemma WalkBegins(
      c: Codec, matches: Row -> bool, limit: nat, cursor: Option<string>, tables: seq<set<Row>>, pages: seq<seq<Row>>)
    returns (next: Option<string>)
    requires SoundWalk(c, matches, limit, cursor, tables, pages)
    ensures |tables| == |pages| > 0 && Ordered(matches, Bound(c, cursor), pages[0])
    ensures var selected := Selected(tables[0], matches, Bound(c, cursor));
            if next.None? then |pages| == 1 && forall r :: r in selected ==> r in pages[0]
            else
              && pages[0] != [] && var last := pages[0][|pages[0]| - 1];
                 && Bound(c, next) == Some(last.key)
                 && SoundWalk(c, matches, limit, next, tables[1..], pages[1..])
                 && forall r :: r in selected ==> r in pages[0] || Less(r.key, last.key)
  {
    next := Page(c, tables[0], matches, limit, cursor).1;
    PageFacts(c, tables[0], matches, limit, cursor);
  }

  lemma {:induction false} WalkDescends(
      c: Codec, matches: Row -> bool, limit: nat, cursor: Option<string>, tables: seq<set<Row>>, pages: seq<seq<Row>>)
    requires SoundWalk(c, matches, limit, cursor, tables, pages)
    ensures Ordered(matches, Bound(c, cursor), Flat(pages))
    decreases |tables|
  {
    var next := WalkBegins(c, matches, limit, cursor, tables, pages);
    if next.None? {
      FlatOne(pages);
    } else {
      WalkDescends(c, matches, limit, next, tables[1..], pages[1..]);
      PageThenRest(matches, Bound(c, cursor), pages[0], Flat(pages[1..]));
    }
  }

  lemma FlatOne(pages: seq<seq<Row>>)
    requires |pages| == 1
    ensures Flat(pages) == pages[0]
  {
    assert pages[1..] == [];
  }

  lemma PageThenRest(matches: Row -> bool, bound: Option<Key>, page: seq<Row>, rest: seq<Row>)
    requires page != [] && Ordered(matches, bound, page) && Ordered(matches, Some(page[|page| - 1].key), rest)
    ensures Ordered(matches, bound, page + rest)
  {
    DescendingConcat(page, rest);
    SelectableConcat(matches, bound, page, rest);
  }

  lemma SelectableConcat(matches: Row -> bool, bound: Option<Key>, page: seq<Row>, rest: seq<Row>)
    requires page != [] && Selectable(matches, bound, page)
    requires Selectable(matches, Some(page[|page| - 1].key), rest)
    ensures Selectable(matches, bound, page + rest)
  {
    assert page[|page| - 1] in page;
  }

  /** The row with this key is in the table and matches, whatever its other columns hold. */
  ghost predicate Present(table: set<Row>, matches: Row -> bool, key: Key) {
    exists r :: r in table && r.key == key && matches(r)
  }

  ghost predicate PresentThroughout(tables: seq<set<Row>>, matches: Row -> bool, key: Key) {
    forall i :: 0 <= i < |tables| ==> Present(tables[i], matches, key)
  }

  ghost predicate Returned(flat: seq<Row>, key: Key) {
    exists r :: r in flat && r.key == key
  }

  lemma {:induction false} WalkMeets(
      c: Codec, matches: Row -> bool, limit: nat, cursor: Option<string>, tables: seq<set<Row>>, pages: seq<seq<Row>>,
      key: Key)
    requires SoundWalk(c, matches, limit, cursor, tables, pages)
    requires PresentThroughout(tables, matches, key)
    requires Bound(c, cursor).Some? ==> Less(key, Bound(c, cursor).value)
    ensures Returned(Flat(pages), key)
    decreases |tables|
  {
    var next := WalkBegins(c, matches, limit, cursor, tables, pages);
    assert Present(tables[0], matches, key);
    var r :| r in tables[0] && r.key == key && matches(r);
    assert r in Selected(tables[0], matches, Bound(c, cursor));
    if r in pages[0] {
      assert r in Flat(pages);
    } else {
      assert PresentThroughout(tables[1..], matches, key);
      WalkMeets(c, matches, limit, next, tables[1..], pages[1..], key);
      var found :| found in Flat(pages[1..]) && found.key == key;
      assert found in Flat(pages);
    }
  }

  /**
   * A walk over a table that changes between pages returns rows in strictly descending order, so
   * none twice, and returns every row that is there and matches throughout the walk.
   */
  lemma WalkIsComplete(
      c: Codec, matches: Row -> bool, limit: nat, tables: seq<set<Row>>, pages: seq<seq<Row>>, key: Key)
    requires Sound(c) && Walk(c, matches, limit, None, tables, pages)
    ensures forall i, j :: 0 <= i < j < |Flat(pages)| ==>
              var (a, b) := (Flat(pages)[i].key, Flat(pages)[j].key);
              a.createdAt > b.createdAt || (a.createdAt == b.createdAt && a.id > b.id)
    ensures forall r :: r in Flat(pages) ==> matches(r)
    ensures forall j, k :: 0 <= j < |Flat(pages)| && 0 <= k < |Flat(pages)| && Flat(pages)[j].key == Flat(pages)[k].key
              ==> j == k
    ensures PresentThroughout(tables, matches, key) ==> Returned(Flat(pages), key)
  {
    WalkDescends(c, matches, limit, None, tables, pages);
    KeysDiffer(Flat(pages));
    if PresentThroughout(tables, matches, key) {
      WalkMeets(c, matches, limit, None, tables, pages, key);
    }
  }

  lemma KeysDiffer(page: seq<Row>)
    requires Descending(page)
    ensures forall j, k :: 0 <= j < |page| && 0 <= k < |page| && page[j].key == page[k].key ==> j == k
  {
    forall j, k | 0 <= j < k < |page|
      ensures page[j].key != page[k].key
    {
      assert Less(page[k].key, page[j].key);
    }
  }

  /** Pages needed for `n` rows. */
  function PagesFor(n: nat, limit: nat): nat
    requires limit >= 1
  {
    if n <= limit then 1 else 1 + PagesFor(n - limit, limit)
  }

  /** The number of pages is `max(1, ceil(n / limit))`. */
  lemma {:induction false} PagesForIsCeiling(n: nat, limit: nat)
    requires limit >= 1
    ensures PagesFor(n, limit) >= 1 && (n == 0 ==> PagesFor(n, limit) == 1)
    ensures n > 0 ==> (PagesFor(n, limit) - 1) * limit < n <= PagesFor(n, limit) * limit
    decreases n
  {
    if n > limit {
      PagesForIsCeiling(n - limit, limit);
      var p := PagesFor(n - limit, limit);
      assert (p + 1) * limit == p * limit + limit && p * limit == (p - 1) * limit + limit;
    }
  }

  /** What is left for the pages after a full one. */
  lemma NextSelection(c: Codec, rows: set<Row>, matches: Row -> bool, limit: nat, cursor: Option<string>)
    requires Sound(c) && Keyed(rows) && limit >= 1 && Readable(c, cursor)
    ensures var next := Page(c, rows, matches, limit, cursor).1;
            var n := |Selected(rows, matches, Bound(c, cursor))|;
            && (next.None? <==> n <= limit)
            && Readable(c, next)
            && (next.Some? ==> |Selected(rows, matches, Bound(c, next))| == n - limit)
  {
    var (page, next) := Page(c, rows, matches, limit, cursor);
    PageFacts(c, rows, matches, limit, cursor);
    if next.Some? {
      SelectedAfterPage(rows, matches, Bound(c, cursor), page[limit - 1]);
    }
  }

  /** A walk all of whose pages are read from one table. */
  ghost predicate FixedWalk(c: Codec, matches: Row -> bool, limit: nat, cursor: Option<string>, table: set<Row>,
                            tables: seq<set<Row>>, pages: seq<seq<Row>>) {
    && Sound(c) && Readable(c, cursor) && Walk(c, matches, limit, cursor, tables, pages)
    && forall i :: 0 <= i < |tables| ==> tables[i] == table
  }

  /** A walk of `n` rows on a fixed table is one page, or a full page and a walk of the rest. */
  lemma WalkUnfolds(c: Codec, matches: Row -> bool, limit: nat, cursor: Option<string>, table: set<Row>,
                    tables: seq<set<Row>>, pages: seq<seq<Row>>)
    returns (n: nat, next: Option<string>)
    requires FixedWalk(c, matches, limit, cursor, table, tables, pages)
    ensures limit >= 1 && n == |Selected(table, matches, Bound(c, cursor))| && |pages| == |tables| >= 1
    ensures n <= limit ==> |pages| == 1
    ensures n > limit ==>
              && FixedWalk(c, matches, limit, next, table, tables[1..], pages[1..])
              && |Selected(table, matches, Bound(c, next))| == n - limit
  {
    assert tables[0] == table;
    next := Page(c, table, matches, limit, cursor).1;
    n := |Selected(table, matches, Bound(c, cursor))|;
    NextSelection(c, table, matches, limit, cursor);
  }

  /** The pages of a walk on a fixed table, counted. */
  lemma {:induction false} WalkLength(c: Codec, matches: Row -> bool, limit: nat, cursor: Option<string>,
                                      table: set<Row>, tables: seq<set<Row>>, pages: seq<seq<Row>>)
    requires FixedWalk(c, matches, limit, cursor, table, tables, pages)
    ensures limit >= 1 && |pages| == PagesFor(|Selected(table, matches, Bound(c, cursor))|, limit)
    decreases |tables|
  {
    var n, next := WalkUnfolds(c, matches, limit, cursor, table, tables, pages);
    if n > limit {
      WalkLength(c, matches, limit, next, table, tables[1..], pages[1..]);
    }
  }

  /** On a table that stays fixed, `n` matching rows take `max(1, ceil(n / limit))` pages. */
  lemma FixedTablePages(c: Codec, matches: Row -> bool, limit: nat,
                        table: set<Row>, tables: seq<set<Row>>, pages: seq<seq<Row>>)
    requires FixedWalk(c, matches, limit, None, table, tables, pages)
    ensures var n := |set r | r in table && matches(r)|;
            && |pages| >= 1 && (n == 0 ==> |pages| == 1)
            && (n > 0 ==> (|pages| - 1) * limit < n <= |pages| * limit)
  {
    assert Selected(table, matches, None) == set r | r in table && matches(r);
    WalkLength(c, matches, limit, None, table, tables, pages);
    PagesForIsCeiling(|Selected(table, matches, None)|, limit);
  }
}
