/**
 * The two spreadsheet loaders of sim_comparator.py, seen as transformations of
 * rows that have already been read from the workbook: the inventory loader
 * collects normalised identifiers into a set, the billing loader turns raw
 * billing rows into tagged, filtered, deduplicated billing records.
 */
module Loaders {
  import opened Wrappers
  import opened Normalizer

  // ---------------------------------------------------------------------------
  // Column steps shared by both loaders
  // ---------------------------------------------------------------------------

  /** `Series.apply(normalize_sim)`: the normaliser applied to every cell of a column. */
  function NormalizeColumn(cells: seq<Option<string>>): (ids: seq<Option<string>>)
    ensures |ids| == |cells|
  {
    seq(|cells|, k requires 0 <= k < |cells| => NormalizeSim(cells[k]))
  }

  /** `dropna()`: the present values, in their original order. */
  function DropMissing<T(!new)>(xs: seq<Option<T>>): (vs: seq<T>)
    ensures |vs| <= |xs|
    ensures forall v :: v in vs <==> Some(v) in xs
  {
    if xs == [] then []
    else
      var front := xs[..|xs| - 1];
      assert xs == front + [xs[|xs| - 1]];
      match xs[|xs| - 1]
      case None => DropMissing(front)
      case Some(v) => DropMissing(front) + [v]
  }

  /** Dropping missing values works piecewise, so it keeps the relative order. */
  lemma {:induction false} DropMissingAppend<T(!new)>(a: seq<Option<T>>, b: seq<Option<T>>)
    ensures DropMissing(a + b) == DropMissing(a) + DropMissing(b)
  {
    if b == [] {
      assert a + b == a;
    } else {
      var front := b[..|b| - 1];
      assert (a + b)[..|a + b| - 1] == a + front;
      assert (a + b)[|a + b| - 1] == b[|b| - 1];
      DropMissingAppend(a, front);
    }
  }

  /** One present value survives `dropna()` on its own. */
  lemma PresentValueKept<T(!new)>(v: T)
    ensures DropMissing([Some(v)]) == [v]
  {
    assert [Some(v)][..0] == [];
  }

  // ---------------------------------------------------------------------------
  // Inventory ("Iluvatrack") loader
  // ---------------------------------------------------------------------------

  /**
   * `load_iluvatrack`: the "Sim Card" column mapped through the normaliser,
   * the missing results dropped and the rest collected into a set.
   */
  function LoadIluvatrack(simCards: seq<Option<string>>): (ids: set<string>)
    ensures forall id :: id in ids ==> IsCanonical(id)
  {
    set id | id in DropMissing(NormalizeColumn(simCards))
  }

  /** An identifier is loaded exactly when some cell of the column normalises to it. */
  lemma LoadIluvatrackMembership(simCards: seq<Option<string>>, id: string)
    ensures id in LoadIluvatrack(simCards) <==> exists i :: 0 <= i < |simCards| && NormalizeSim(simCards[i]) == Some(id)
  {
    var column := NormalizeColumn(simCards);
    if id in LoadIluvatrack(simCards) {
      var i :| 0 <= i < |column| && column[i] == Some(id);
      assert NormalizeSim(simCards[i]) == Some(id);
    }
    if exists i :: 0 <= i < |simCards| && NormalizeSim(simCards[i]) == Some(id) {
      var i :| 0 <= i < |simCards| && NormalizeSim(simCards[i]) == Some(id);
      assert column[i] == Some(id);
    }
  }

  // ---------------------------------------------------------------------------
  // Billing ("Telkomsel") loader
  // ---------------------------------------------------------------------------

  /** One billing row as read from the sheet: MSISDN cell, parsed TAGIHAN, STATUS_LAYANAN text. */
  datatype RawBillingRow = RawBillingRow(msisdn: Option<string>, price: int, status: string)

  /** One row of a billing frame: identifier, price, cleaned status, region label. */
  datatype BillingRecord = BillingRecord(phoneNumber: string, price: int, status: string, region: string)

  /** The status that marks a cancelled line. */
  const Cancelled: string := "C"

  predicate IsLower(c: char) {
    'a' <= c <= 'z'
  }

  /** ASCII upper-casing of one character. */
  function UpperChar(c: char): (u: char)
    ensures !IsLower(u)
    ensures IsSpace(u) <==> IsSpace(c)
    ensures IsLower(c) ==> u as int == c as int - 32
    ensures !IsLower(c) ==> u == c
  {
    if IsLower(c) then (c as int - 'a' as int + 'A' as int) as char else c
  }

  /** `str.upper()` on ASCII letters. */
  function Upper(s: string): (r: string)
    ensures |r| == |s|
    ensures forall i :: 0 <= i < |s| ==> r[i] == UpperChar(s[i])
    ensures (forall i :: 0 <= i < |s| ==> !IsLower(s[i])) ==> r == s
  {
    if s == [] then [] else [UpperChar(s[0])] + Upper(s[1..])
  }

  /** A cleaned status: no surrounding whitespace and no lower-case letter. */
  predicate IsCleanStatus(s: string) {
    (s == [] || (!IsSpace(s[0]) && !IsSpace(s[|s| - 1])))
    && forall i :: 0 <= i < |s| ==> !IsLower(s[i])
  }

  /** `.astype(str).str.strip().str.upper()` applied to the status text. */
  function CleanStatus(raw: string): (status: string)
    ensures IsCleanStatus(status)
    ensures |status| <= |raw|
  {
    Upper(Strip(raw))
  }

  /**
   * Whitespace around the status text is ignored and its letters are
   * upper-cased: " aktif " and "AKTIF" give the same status.
   */
  lemma CleanStatusOfPadded(w1: string, s: string, w2: string)
    requires AllSpace(w1) && AllSpace(w2)
    requires s != [] && !IsSpace(s[0]) && !IsSpace(s[|s| - 1])
    ensures CleanStatus(w1 + s + w2) == Upper(s)
  {
    StripPadding(w1, s, w2);
  }

  /** A status that is already clean is left as it is. */
  lemma CleanStatusKeepsClean(s: string)
    requires s != [] && !IsSpace(s[0]) && !IsSpace(s[|s| - 1])
    requires forall i :: 0 <= i < |s| ==> !IsLower(s[i])
    ensures CleanStatus(s) == s
  {
    assert "" + s + "" == s;
    CleanStatusOfPadded("", s, "");
  }

  /** What every record of a billing frame loaded under `region` satisfies. */
  predicate WellFormedRecord(rec: BillingRecord, region: string) {
    IsCanonical(rec.phoneNumber) && IsCleanStatus(rec.status) && rec.status != Cancelled && rec.region == region
  }

  /**
   * One row through the per-row steps of `load_telkomsel`: the identifier is
   * normalised and the row dropped when that fails; the status is cleaned and
   * the row dropped when it is "C"; the row is tagged with the region.
   */
  function ToRecord(row: RawBillingRow, region: string): (rec: Option<BillingRecord>)
    ensures rec.Some? ==> rec.value.price == row.price && rec.value.region == region
  {
    match NormalizeSim(row.msisdn)
    case None => None
    case Some(id) =>
      var status := CleanStatus(row.status);
      if status == Cancelled then None else Some(BillingRecord(id, row.price, status, region))
  }

  /**
   * A row is kept exactly when its identifier normalises and its cleaned status
   * is not "C"; a kept row is well formed and is the row's normalised
   * identifier, price, cleaned status and the region.
   */
  lemma ToRecordSpec(row: RawBillingRow, region: string)
    ensures ToRecord(row, region).Some? <==> NormalizeSim(row.msisdn).Some? && CleanStatus(row.status) != Cancelled
    ensures ToRecord(row, region).Some? ==>
      && WellFormedRecord(ToRecord(row, region).value, region)
      && ToRecord(row, region).value
         == BillingRecord(NormalizeSim(row.msisdn).value, row.price, CleanStatus(row.status), region)
  {
  }

  /** Every row through the per-row steps; `None` marks a dropped row. */
  function ToRecords(rows: seq<RawBillingRow>, region: string): (recs: seq<Option<BillingRecord>>)
    ensures |recs| == |rows|
  {
    seq(|rows|, k requires 0 <= k < |rows| => ToRecord(rows[k], region))
  }

  /** The rows that survive the per-row steps, in sheet order. */
  function TaggedRows(rows: seq<RawBillingRow>, region: string): (recs: seq<BillingRecord>)
    ensures |recs| <= |rows|
  {
    DropMissing(ToRecords(rows, region))
  }

  /** A record survives the per-row steps exactly when some row of the sheet yields it. */
  lemma TaggedRowsMembership(rows: seq<RawBillingRow>, region: string, rec: BillingRecord)
    ensures rec in TaggedRows(rows, region) <==> exists i :: 0 <= i < |rows| && ToRecord(rows[i], region) == Some(rec)
  {
    var recs := ToRecords(rows, region);
    if rec in TaggedRows(rows, region) {
      var i :| 0 <= i < |recs| && recs[i] == Some(rec);
      assert ToRecord(rows[i], region) == Some(rec);
    }
    if exists i :: 0 <= i < |rows| && ToRecord(rows[i], region) == Some(rec) {
      var i :| 0 <= i < |rows| && ToRecord(rows[i], region) == Some(rec);
      assert recs[i] == Some(rec);
    }
  }

  // ---------------------------------------------------------------------------
  // drop_duplicates (keep the first occurrence)
  // ---------------------------------------------------------------------------

  /** No element occurs twice. */
  predicate Distinct<T(==,!new)>(s: seq<T>) {
    forall i, j :: 0 <= i < j < |s| ==> s[i] != s[j]
  }

  /** The position of the first occurrence of `x` in `s`. */
  function FirstIndex<T(==,!new)>(s: seq<T>, x: T): (k: nat)
    requires x in s
    ensures k < |s| && s[k] == x && x !in s[..k]
  {
    if s[0] == x then 0
    else
      var k := FirstIndex(s[1..], x);
      assert s[..k + 1] == [s[0]] + s[1..][..k];
      k + 1
  }

  /** The first occurrence of `x` in `p` stays the first once more elements follow. */
  lemma FirstIndexPrefix<T(!new)>(p: seq<T>, y: T, x: T)
    requires x in p
    ensures FirstIndex(p + [y], x) == FirstIndex(p, x)
  {
    var s := p + [y];
    var k1, k2 := FirstIndex(s, x), FirstIndex(p, x);
    assert forall a :: 0 <= a < k2 ==> s[a] != x by {
      assert forall a :: 0 <= a < k2 ==> s[a] == p[..k2][a];
    }
    assert forall a :: 0 <= a < k1 ==> s[a] != x by {
      assert forall a :: 0 <= a < k1 ==> s[a] == s[..k1][a];
    }
    assert s[k2] == x;
  }

  /**
   * `DataFrame.drop_duplicates()`: the element at position i is kept exactly
   * when it does not occur before position i.
   */
  function DropDuplicates<T(==,!new)>(s: seq<T>): (r: seq<T>)
    ensures |r| <= |s|
    ensures forall x :: x in r <==> x in s
    ensures Distinct(r)
  {
    if s == [] then []
    else
      var front := s[..|s| - 1];
      var kept := DropDuplicates(front);
      assert s == front + [s[|s| - 1]];
      if s[|s| - 1] in front then kept else kept + [s[|s| - 1]]
  }

  /** The records kept appear in the order of their first occurrences. */
  lemma {:induction false} DropDuplicatesKeepsFirstOrder<T(!new)>(s: seq<T>)
    ensures forall i, j :: 0 <= i < j < |DropDuplicates(s)| ==>
      FirstIndex(s, DropDuplicates(s)[i]) < FirstIndex(s, DropDuplicates(s)[j])
  {
    if s != [] {
      var front, last := s[..|s| - 1], s[|s| - 1];
      assert s == front + [last];
      DropDuplicatesKeepsFirstOrder(front);
      var kept := DropDuplicates(front);
      forall x | x in front
        ensures FirstIndex(s, x) == FirstIndex(front, x)
      {
        FirstIndexPrefix(front, last, x);
      }
      if last !in front {
        assert FirstIndex(s, last) == |s| - 1;
      }
    }
  }

  /** A sequence without repetitions is left unchanged. */
  lemma {:induction false} DropDuplicatesOfDistinct<T(!new)>(s: seq<T>)
    requires Distinct(s)
    ensures DropDuplicates(s) == s
  {
    if s != [] {
      var front := s[..|s| - 1];
      DropDuplicatesOfDistinct(front);
      assert s == front + [s[|s| - 1]];
    }
  }

  /**
   * `load_telkomsel`: the rows that survive the per-row steps, tagged with the
   * caller's region, with exact duplicates of the four-field record removed.
   */
  function LoadTelkomsel(rows: seq<RawBillingRow>, region: string): (frame: seq<BillingRecord>)
    ensures |frame| <= |rows|
    ensures Distinct(frame)
  {
    DropDuplicates(TaggedRows(rows, region))
  }

  /** A record is loaded exactly when some row of the sheet yields it. */
  lemma LoadTelkomselMembership(rows: seq<RawBillingRow>, region: string, rec: BillingRecord)
    ensures rec in LoadTelkomsel(rows, region) <==> exists i :: 0 <= i < |rows| && ToRecord(rows[i], region) == Some(rec)
  {
    TaggedRowsMembership(rows, region, rec);
  }

  /**
   * Every loaded record has a canonical identifier, a cleaned status other than
   * "C", and the caller's region.
   */
  lemma LoadTelkomselWellFormed(rows: seq<RawBillingRow>, region: string, rec: BillingRecord)
    requires rec in LoadTelkomsel(rows, region)
    ensures WellFormedRecord(rec, region)
  {
    LoadTelkomselMembership(rows, region, rec);
    var i :| 0 <= i < |rows| && ToRecord(rows[i], region) == Some(rec);
    ToRecordSpec(rows[i], region);
  }

  // ---------------------------------------------------------------------------
  // Lemmas about the billing loader
  // ---------------------------------------------------------------------------

  /** A status of "c" or "C", with any whitespace around it, drops the row. */
  lemma CancelledRowIsDropped(row: RawBillingRow, region: string, w1: string, w2: string)
    requires AllSpace(w1) && AllSpace(w2)
    requires row.status == w1 + "c" + w2 || row.status == w1 + "C" + w2
    ensures ToRecord(row, region) == None
  {
    if row.status == w1 + "c" + w2 {
      CleanStatusOfPadded(w1, "c", w2);
    } else {
      CleanStatusOfPadded(w1, "C", w2);
    }
    assert CleanStatus(row.status) == Cancelled;
  }
}
