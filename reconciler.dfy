/**
 * The "Compare" action of sim_comparator.py: the inventory sets are unioned,
 * the billing frames are loaded in a fixed order and concatenated, and the
 * chosen direction of the comparison yields either the billed rows that the
 * inventory lacks or the inventory identifiers that no billing row mentions.
 */
module Reconciler {
  import opened Wrappers
  import opened Normalizer
  import opened Loaders

  /** The two entries of the mode selector. */
  datatype Direction =
    | BilledButUntracked   // "Telkomsel → Iluvatrack (find unused / still billed)"
    | TrackedButUnbilled   // "Iluvatrack → Telkomsel (find missing / unbilled)"

  /** What a comparison produces, tagged by its direction. */
  datatype Mismatch =
    | UntrackedRows(rows: seq<BillingRecord>)
    | UnbilledIds(ids: set<string>)

  /** Raised before any processing when a required upload is absent. */
  datatype CompareError = MissingInput

  // ---------------------------------------------------------------------------
  // Region labels
  // ---------------------------------------------------------------------------

  function DigitChar(d: nat): (c: char)
    requires d < 10
    ensures IsDigit(c)
  {
    ('0' as int + d) as char
  }

  /** A decimal numeral as Python writes one: digits, with no leading zero except in "0". */
  predicate IsNumeral(s: string)
  {
    |s| > 0 && AllDigits(s) && (|s| > 1 ==> s[0] != '0')
  }

  /** Python's decimal rendering of a natural number (`f"{n}"`). */
  function NatToString(n: nat): (s: string)
    ensures IsNumeral(s)
    ensures n > 0 ==> s[0] != '0'
    decreases n
  {
    if n < 10 then [DigitChar(n)] else NatToString(n / 10) + [DigitChar(n % 10)]
  }

  /** The value of a decimal digit string. */
  function DecimalValue(s: string): nat
    requires AllDigits(s)
  {
    if s == [] then 0 else 10 * DecimalValue(s[..|s| - 1]) + (s[|s| - 1] as int - '0' as int)
  }

  /** Reading a rendered number back gives the number: rendering is injective. */
  lemma {:induction false} DecimalRoundTrip(n: nat)
    ensures DecimalValue(NatToString(n)) == n
    decreases n
  {
    if n >= 10 {
      var s := NatToString(n);
      DecimalRoundTrip(n / 10);
      assert s[..|s| - 1] == NatToString(n / 10);
    }
  }

  /** Every numeral is the rendering of its value: rendering is onto the numerals. */
  lemma {:induction false} NumeralRoundTrip(s: string)
    requires IsNumeral(s)
    ensures NatToString(DecimalValue(s)) == s
    decreases |s|
  {
    var d := s[|s| - 1] as int - '0' as int;
    if |s| == 1 {
      assert DecimalValue(s) == d by { assert s[..0] == []; }
    } else {
      var p := s[..|s| - 1];
      assert p[0] == s[0];
      NumeralRoundTrip(p);
      var v := DecimalValue(p);
      assert v > 0;
      assert DecimalValue(s) / 10 == v && DecimalValue(s) % 10 == d;
      assert s == p + [s[|s| - 1]];
    }
  }

  /** The label of the i-th optional sheet (counting from 0): "Extra-1", "Extra-2", … */
  function ExtraLabel(i: nat): (name: string)
    ensures |name| > 6 && name[..6] == "Extra-"
    ensures IsNumeral(name[6..]) && name[6] != '0' && DecimalValue(name[6..]) == i + 1
  {
    var n := NatToString(i + 1);
    DecimalRoundTrip(i + 1);
    assert ("Extra-" + n)[6..] == n;
    "Extra-" + n
  }

  /** The first optional sheet is labelled "Extra-1". */
  lemma FirstExtraLabel()
    ensures ExtraLabel(0) == "Extra-1"
  {
    assert NatToString(1) == "1";
  }

  /** Distinct optional sheets get distinct labels, none equal to a regional one. */
  lemma ExtraLabelsDistinct(i: nat, j: nat)
    ensures ExtraLabel(i) == ExtraLabel(j) <==> i == j
    ensures ExtraLabel(i) != "Jakarta" && ExtraLabel(i) != "Kalimantan"
  {
    if ExtraLabel(i) == ExtraLabel(j) {
      assert NatToString(i + 1) == ExtraLabel(i)[6..];
      assert NatToString(j + 1) == ExtraLabel(j)[6..];
      DecimalRoundTrip(i + 1);
      DecimalRoundTrip(j + 1);
    }
    assert ExtraLabel(i)[0] == 'E';
  }

  // ---------------------------------------------------------------------------
  // Specification functions of the combine and compare steps
  // ---------------------------------------------------------------------------

  /** The union of the identifier sets of all inventory sheets. */
  function TrackedIds(inventories: seq<seq<Option<string>>>): (ids: set<string>)
    ensures forall id :: id in ids ==> IsCanonical(id)
  {
    if inventories == [] then {}
    else TrackedIds(inventories[..|inventories| - 1]) + LoadIluvatrack(inventories[|inventories| - 1])
  }

  /** An identifier is tracked exactly when some inventory sheet yields it. */
  lemma {:induction false} TrackedIdsMembership(inventories: seq<seq<Option<string>>>, id: string)
    ensures id in TrackedIds(inventories) <==> exists f :: 0 <= f < |inventories| && id in LoadIluvatrack(inventories[f])
  {
    if inventories != [] {
      var n := |inventories|;
      var front, last := inventories[..n - 1], inventories[n - 1];
      TrackedIdsMembership(front, id);
      assert TrackedIds(inventories) == TrackedIds(front) + LoadIluvatrack(last);
      if id in TrackedIds(front) {
        var f :| 0 <= f < |front| && id in LoadIluvatrack(front[f]);
        assert front[f] == inventories[f];
      } else if id in LoadIluvatrack(last) {
        assert id in LoadIluvatrack(inventories[n - 1]);
      } else {
        forall f | 0 <= f < n
          ensures id !in LoadIluvatrack(inventories[f])
        {
          if f < n - 1 {
            assert front[f] == inventories[f];
          }
        }
      }
    }
  }

  /** The optional sheets with their labels "Extra-1", …, "Extra-n". */
  function ExtraSources(extras: seq<seq<RawBillingRow>>): (sources: seq<(seq<RawBillingRow>, string)>)
    ensures |sources| == |extras|
    ensures forall i :: 0 <= i < |extras| ==> sources[i] == (extras[i], ExtraLabel(i))
  {
    if extras == [] then []
    else ExtraSources(extras[..|extras| - 1]) + [(extras[|extras| - 1], ExtraLabel(|extras| - 1))]
  }

  /** The billing sheets with their region labels: Jakarta, Kalimantan, Extra-1, …, Extra-n. */
  function BillingSources(jakarta: seq<RawBillingRow>, kalimantan: seq<RawBillingRow>, extras: seq<seq<RawBillingRow>>)
    : (sources: seq<(seq<RawBillingRow>, string)>)
    ensures |sources| == |extras| + 2
    ensures sources[0] == (jakarta, "Jakarta") && sources[1] == (kalimantan, "Kalimantan")
    ensures forall k :: 2 <= k < |sources| ==> sources[k] == (extras[k - 2], ExtraLabel(k - 2))
  {
    [(jakarta, "Jakarta"), (kalimantan, "Kalimantan")] + ExtraSources(extras)
  }

  /** Every source carries its own label. */
  lemma SourceLabelsDistinct(jakarta: seq<RawBillingRow>, kalimantan: seq<RawBillingRow>, extras: seq<seq<RawBillingRow>>)
    ensures var sources := BillingSources(jakarta, kalimantan, extras);
      forall k1, k2 :: 0 <= k1 < k2 < |sources| ==> sources[k1].1 != sources[k2].1
  {
    var sources := BillingSources(jakarta, kalimantan, extras);
    forall k1, k2 | 0 <= k1 < k2 < |sources|
      ensures sources[k1].1 != sources[k2].1
    {
      if k1 >= 2 {
        ExtraLabelsDistinct(k1 - 2, k2 - 2);
      } else if k2 >= 2 {
        ExtraLabelsDistinct(k2 - 2, k2 - 2);
      }
    }
  }

  /** Each source loaded on its own under its own label, in source order. */
  function LoadAll(sources: seq<(seq<RawBillingRow>, string)>): (frames: seq<seq<BillingRecord>>)
    ensures |frames| == |sources|
  {
    seq(|sources|, k requires 0 <= k < |sources| => LoadTelkomsel(sources[k].0, sources[k].1))
  }

  /** Loading one more source appends its frame and leaves the earlier frames alone. */
  lemma LoadAllAppend(sources: seq<(seq<RawBillingRow>, string)>, source: (seq<RawBillingRow>, string))
    ensures LoadAll(sources + [source]) == LoadAll(sources) + [LoadTelkomsel(source.0, source.1)]
  {
    var n := |sources|;
    forall k | 0 <= k < n
      ensures LoadAll(sources + [source])[k] == LoadAll(sources)[k]
    {
      assert (sources + [source])[k] == sources[k];
    }
    assert (sources + [source])[n] == source;
  }

  /** `pd.concat`: the frames one after the other, nothing merged or removed. */
  function Concat(frames: seq<seq<BillingRecord>>): (frame: seq<BillingRecord>)
    ensures forall rec :: rec in frame <==> exists k :: 0 <= k < |frames| && rec in frames[k]
  {
    if frames == [] then []
    else
      var front := frames[..|frames| - 1];
      assert forall k :: 0 <= k < |front| ==> front[k] == frames[k];
      Concat(front) + frames[|frames| - 1]
  }

  /** Concatenation works piecewise: each frame stays whole and in its place. */
  lemma {:induction false} ConcatAppend(a: seq<seq<BillingRecord>>, b: seq<seq<BillingRecord>>)
    ensures Concat(a + b) == Concat(a) + Concat(b)
  {
    if b == [] {
      assert a + b == a;
    } else {
      var front := b[..|b| - 1];
      assert (a + b)[..|a + b| - 1] == a + front;
      ConcatAppend(a, front);
    }
  }

  /** Two sequences without repetitions and with no common element join into one without repetitions. */
  lemma DistinctAppend(a: seq<BillingRecord>, b: seq<BillingRecord>)
    requires Distinct(a) && Distinct(b)
    requires forall rec :: rec in a ==> rec !in b
    ensures Distinct(a + b)
  {
    forall i, j | 0 <= i < j < |a + b|
      ensures (a + b)[i] != (a + b)[j]
    {
      if i < |a| && j >= |a| {
        assert (a + b)[i] in a && (a + b)[j] in b;
      }
    }
  }

  /**
   * Frames without repetitions whose records carry their frame's label, the
   * labels all different, concatenate to a frame without repetitions.
   */
  lemma {:induction false} ConcatDistinct(frames: seq<seq<BillingRecord>>, labels: seq<string>)
    requires |labels| == |frames|
    requires forall k :: 0 <= k < |frames| ==> Distinct(frames[k])
    requires forall k, rec :: 0 <= k < |frames| && rec in frames[k] ==> rec.region == labels[k]
    requires forall k1, k2 :: 0 <= k1 < k2 < |labels| ==> labels[k1] != labels[k2]
    ensures Distinct(Concat(frames))
  {
    if frames != [] {
      var n := |frames|;
      var front, last := frames[..n - 1], frames[n - 1];
      ConcatDistinct(front, labels[..n - 1]);
      forall rec | rec in Concat(front)
        ensures rec !in last
      {
        var k :| 0 <= k < |front| && rec in front[k];
        assert rec.region == labels[k] != labels[n - 1];
      }
      DistinctAppend(Concat(front), last);
    }
  }

  /** One frame concatenated on its own is that frame. */
  lemma ConcatOne(frame: seq<BillingRecord>)
    ensures Concat([frame]) == frame
  {
    assert [frame][..0] == [];
  }

  /** Three frames concatenated are the three one after the other. */
  lemma ThreeFrames(a: seq<BillingRecord>, b: seq<BillingRecord>, c: seq<BillingRecord>)
    ensures Concat([a, b, c]) == a + b + c
  {
    ConcatAppend([a, b], [c]);
    ConcatAppend([a], [b]);
    assert [a, b, c] == [a, b] + [c] && [a, b] == [a] + [b];
    ConcatOne(a);
    ConcatOne(b);
    ConcatOne(c);
  }

  /**
   * The combined billing frame has no repeated record: each sheet is
   * deduplicated on its own, and no two sheets share a region label.
   */
  lemma CombinedFrameDistinct(jakarta: seq<RawBillingRow>, kalimantan: seq<RawBillingRow>, extras: seq<seq<RawBillingRow>>)
    ensures Distinct(Concat(LoadAll(BillingSources(jakarta, kalimantan, extras))))
  {
    var sources := BillingSources(jakarta, kalimantan, extras);
    var frames := LoadAll(sources);
    var labels := seq(|sources|, k requires 0 <= k < |sources| => sources[k].1);
    SourceLabelsDistinct(jakarta, kalimantan, extras);
    forall k, rec: BillingRecord | 0 <= k < |frames| && rec in frames[k]
      ensures rec.region == labels[k]
    {
      LoadTelkomselWellFormed(sources[k].0, sources[k].1, rec);
    }
    ConcatDistinct(frames, labels);
  }

  /** The identifiers that occur in a billing frame. */
  function BilledIds(frame: seq<BillingRecord>): (ids: set<string>)
    ensures forall id :: id in ids <==> exists rec :: rec in frame && rec.phoneNumber == id
  {
    set rec | rec in frame :: rec.phoneNumber
  }

  /**
   * The billed-but-untracked filter: the rows whose identifier is not in the
   * tracked set, fields untouched, in frame order.
   */
  function FilterUntracked(frame: seq<BillingRecord>, tracked: set<string>): (rows: seq<BillingRecord>)
    ensures |rows| <= |frame|
    ensures forall rec :: rec in rows <==> rec in frame && rec.phoneNumber !in tracked
  {
    if frame == [] then []
    else
      var front := FilterUntracked(frame[..|frame| - 1], tracked);
      var last := frame[|frame| - 1];
      assert frame == frame[..|frame| - 1] + [last];
      if last.phoneNumber in tracked then front else front + [last]
  }

  /** The filter works row by row: it keeps the relative order of the frame. */
  lemma {:induction false} FilterUntrackedAppend(a: seq<BillingRecord>, b: seq<BillingRecord>, tracked: set<string>)
    ensures FilterUntracked(a + b, tracked) == FilterUntracked(a, tracked) + FilterUntracked(b, tracked)
  {
    if b == [] {
      assert a + b == a;
    } else {
      var front := b[..|b| - 1];
      assert (a + b)[..|a + b| - 1] == a + front;
      FilterUntrackedAppend(a, front, tracked);
    }
  }

  /** The filter never repeats a record the frame does not repeat. */
  lemma {:induction false} FilterUntrackedDistinct(frame: seq<BillingRecord>, tracked: set<string>)
    requires Distinct(frame)
    ensures Distinct(FilterUntracked(frame, tracked))
  {
    if frame != [] {
      var front, last := frame[..|frame| - 1], frame[|frame| - 1];
      FilterUntrackedDistinct(front, tracked);
      assert last !in front by {
        assert frame == front + [last];
      }
      DistinctAppend(FilterUntracked(front, tracked), FilterUntracked([last], tracked));
      FilterUntrackedAppend(front, [last], tracked);
      assert frame == front + [last];
    }
  }

  /**
   * The tracked-but-unbilled difference: the tracked identifiers that no row
   * of the frame mentions, whatever its price, status or region.
   */
  function MissingFromBilling(tracked: set<string>, frame: seq<BillingRecord>): (ids: set<string>)
    ensures ids <= tracked
    ensures forall rec :: rec in frame ==> rec.phoneNumber !in ids
    ensures forall id :: id in tracked && id !in ids ==> exists rec :: rec in frame && rec.phoneNumber == id
  {
    tracked - BilledIds(frame)
  }

  /**
   * The two directions together account for every identifier seen: each one is
   * tracked and billed, tracked only (unbilled), or billed only (in an untracked
   * row), and no identifier falls in two of these classes.
   */
  lemma ReconciliationPartition(tracked: set<string>, frame: seq<BillingRecord>)
    ensures var unbilled := MissingFromBilling(tracked, frame);
      var untracked := BilledIds(FilterUntracked(frame, tracked));
      var both := tracked * BilledIds(frame);
      && tracked + BilledIds(frame) == unbilled + both + untracked
      && unbilled * both == {} && unbilled * untracked == {} && both * untracked == {}
  {
    var untracked := BilledIds(FilterUntracked(frame, tracked));
    assert untracked == BilledIds(frame) - tracked;
  }

  // ---------------------------------------------------------------------------
  // The Compare block
  // ---------------------------------------------------------------------------

  /** Lines 70-73: the inventory sets unioned one sheet at a time. */
  method CollectTracked(inventories: seq<seq<Option<string>>>) returns (sims: set<string>)
    ensures sims == TrackedIds(inventories)
  {
    sims := {};
    for f := 0 to |inventories|
      invariant sims == TrackedIds(inventories[..f])
    {
      assert inventories[..f + 1][..f] == inventories[..f];
      sims := sims + LoadIluvatrack(inventories[f]);
    }
    assert inventories[..|inventories|] == inventories;
  }

  /** Lines 76-82: the two regional sheets, then every optional sheet, loaded and concatenated. */
  method CombineBilling(jakarta: seq<RawBillingRow>, kalimantan: seq<RawBillingRow>, extras: seq<seq<RawBillingRow>>)
    returns (frame: seq<BillingRecord>)
    ensures frame == Concat(LoadAll(BillingSources(jakarta, kalimantan, extras)))
    ensures Distinct(frame)
  {
    ghost var sources := BillingSources(jakarta, kalimantan, extras);
    var frames := [LoadTelkomsel(jakarta, "Jakarta"), LoadTelkomsel(kalimantan, "Kalimantan")];
    for i := 0 to |extras|
      invariant frames == LoadAll(sources[..i + 2])
    {
      assert sources[..i + 3] == sources[..i + 2] + [(extras[i], ExtraLabel(i))];
      LoadAllAppend(sources[..i + 2], (extras[i], ExtraLabel(i)));
      frames := frames + [LoadTelkomsel(extras[i], ExtraLabel(i))];
    }
    assert sources[..|extras| + 2] == sources;
    frame := Concat(frames);
    CombinedFrameDistinct(jakarta, kalimantan, extras);
  }

  /**
   * Lines 65-92: refuse to start without an inventory sheet and both regional
   * sheets; otherwise build the tracked set and the combined billing frame and
   * compare them in the chosen direction.
   */
  method Compare(
    direction: Direction,
    inventories: seq<seq<Option<string>>>,
    jakarta: Option<seq<RawBillingRow>>,
    kalimantan: Option<seq<RawBillingRow>>,
    extras: seq<seq<RawBillingRow>>)
    returns (outcome: Result<Mismatch, CompareError>)
    ensures outcome.Failure? <==> inventories == [] || jakarta.None? || kalimantan.None?
    ensures outcome.Failure? ==> outcome.error == MissingInput
    ensures outcome.Success? ==>
      var tracked := TrackedIds(inventories);
      var frame := Concat(LoadAll(BillingSources(jakarta.value, kalimantan.value, extras)));
      outcome.value == match direction
        case BilledButUntracked => UntrackedRows(FilterUntracked(frame, tracked))
        case TrackedButUnbilled => UnbilledIds(MissingFromBilling(tracked, frame))
    ensures outcome.Success? && outcome.value.UntrackedRows? ==> Distinct(outcome.value.rows)
  {
    if inventories == [] || jakarta.None? || kalimantan.None? {
      return Failure(MissingInput);
    }
    var sims := CollectTracked(inventories);
    var frame := CombineBilling(jakarta.value, kalimantan.value, extras);
    var billed := BilledIds(frame);
    match direction
    case BilledButUntracked =>
      FilterUntrackedDistinct(frame, sims);
      outcome := Success(UntrackedRows(FilterUntracked(frame, sims)));
    case TrackedButUnbilled =>
      outcome := Success(UnbilledIds(sims - billed));
  }
}
