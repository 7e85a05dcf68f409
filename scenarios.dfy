/**
 * Worked examples: the normaliser on sample numbers, and whole comparisons
 * on small inventories and billing sheets.
 */
module Scenarios {
  import opened Wrappers
  import opened Normalizer

  /** The country code is replaced by the trunk prefix '0'. */
  lemma InternationalSample()
    ensures NormalizeSim(Some("6281234567890")) == Some("081234567890")
    ensures NormalizeSim(Some("62")) == Some("0")
  {
    var d, e := "6281234567890", "62";
    assert "0" + d[2..] == "081234567890";
    assert "0" + e[2..] == "0";
    assert AllDigits(d) && AllDigits(e);
    DigitStringReachesPrefixRule(d);
    DigitStringReachesPrefixRule(e);
  }

  /** A number without trunk prefix gets one; one with it is kept. */
  lemma LocalSamples()
    ensures NormalizeSim(Some("81234567890")) == Some("081234567890")
    ensures NormalizeSim(Some("081234567890")) == Some("081234567890")
  {
    var d, e := "81234567890", "081234567890";
    assert "0" + d == e;
    assert AllDigits(e);
    LeadingEightRule(d);
    LeadingZeroRule(e[1..]);
    assert "0" + e[1..] == e;
  }

  /** Foreign, empty and missing numbers are rejected. */
  lemma RejectedSamples()
    ensures NormalizeSim(Some("1234567890")) == None
    ensures NormalizeSim(Some("")) == None
    ensures NormalizeSim(None) == None
  {
    assert AllDigits("1234567890");
    NoRuleRejects("1234567890");
    NoRuleRejects("");
  }

  /** ".0" goes before the digit filter runs. */
  lemma DotZeroSample()
    ensures NormalizeSim(Some("81.05")) == Some("0815")
  {
    var cell := "81.05";
    assert "0" + "815" == "0815";
    assert RemoveDotZero(cell) == "815";
    assert Digits("815") == "815";
    StripKeepsDigits(cell);
    DigitStringReachesPrefixRule("815");
  }

  /** The removal is one pass: a ".0" that a removal brings together stays. */
  lemma SinglePassSample()
    ensures RemoveDotZero("..00") == ".0"
  {
    var t := "..00";
    assert t[1..] == ".00" && ".00"[2..] == "0" && "0"[1..] == [];
    assert [t[0]] + "0" == ".0";
    assert RemoveDotZero("0") == "0";
    assert RemoveDotZero(".00") == "0";
  }
}

/** Whole comparisons on small inventories and billing sheets. */
module CompareScenarios {
  import opened Wrappers
  import opened Normalizer
  import opened Loaders
  import opened Reconciler

  /** An inventory sheet holding one canonical number tracks exactly that number. */
  lemma OneNumberInventory(c: string)
    requires IsCanonical(c)
    ensures TrackedIds([[Some(c)]]) == {c}
  {
    DigitStringReachesPrefixRule(c);
    var inventories := [[Some(c)]];
    assert inventories[..0] == [];
    assert inventories[0][..0] == [];
  }

  /** A row that the per-row steps drop leaves the loaded frame unchanged. */
  lemma DroppedRowIsInvisible(rows: seq<RawBillingRow>, row: RawBillingRow, region: string)
    requires ToRecord(row, region) == None
    ensures TaggedRows(rows + [row], region) == TaggedRows(rows, region)
  {
    var dropped: seq<Option<BillingRecord>> := [None];
    assert ToRecords(rows + [row], region) == ToRecords(rows, region) + dropped;
    DropMissingAppend(ToRecords(rows, region), dropped);
    assert DropMissing(dropped) == [] by {
      assert dropped[..0] == [];
    }
  }

  /** A sheet with one live row loads as that one record. */
  lemma OneRowSheet(row: RawBillingRow, region: string)
    requires ToRecord(row, region).Some?
    ensures LoadTelkomsel([row], region) == [ToRecord(row, region).value]
  {
    var rec := ToRecord(row, region).value;
    assert ToRecords([row], region) == [Some(rec)];
    assert [Some(rec)][..0] == [];
    assert TaggedRows([row], region) == [rec];
    assert [rec][..0] == [];
    assert DropDuplicates([rec]) == [rec];
  }

  /** With no optional sheets the frame is the Jakarta frame followed by the Kalimantan frame. */
  lemma TwoSheetFrame(jakarta: seq<RawBillingRow>, kalimantan: seq<RawBillingRow>)
    ensures Concat(LoadAll(BillingSources(jakarta, kalimantan, [])))
      == LoadTelkomsel(jakarta, "Jakarta") + LoadTelkomsel(kalimantan, "Kalimantan")
  {
    var a, b := LoadTelkomsel(jakarta, "Jakarta"), LoadTelkomsel(kalimantan, "Kalimantan");
    var sources := BillingSources(jakarta, kalimantan, []);
    var frames := LoadAll(sources);
    assert frames == [a] + [b];
    ConcatAppend([a], [b]);
    ConcatOne(a);
    ConcatOne(b);
  }

  /**
   * The inventory tracks a number in local form; Jakarta bills the same number
   * in international form ("62" instead of the leading '0') on a live line,
   * and another number on a cancelled line; Kalimantan is empty. The number is
   * matched and the cancelled line ignored: both directions are empty.
   */
  lemma MatchedAfterNormalisation(c: string, live: RawBillingRow, cancelled: RawBillingRow)
    requires IsCanonical(c)
    requires live.msisdn == Some("62" + c[1..]) && CleanStatus(live.status) != Cancelled
    requires CleanStatus(cancelled.status) == Cancelled
    ensures var tracked := TrackedIds([[Some(c)]]);
      var frame := Concat(LoadAll(BillingSources([live, cancelled], [], [])));
      && FilterUntracked(frame, tracked) == []
      && MissingFromBilling(tracked, frame) == {}
  {
    InternationalFormMatches(c);
    var rec := LiveRowFrame(live, cancelled);
    OneNumberInventory(c);
    assert FilterUntracked([rec], {c}) == [] by {
      assert [rec][..0] == [];
    }
    assert MissingFromBilling({c}, [rec]) == {};
  }

  /** The international form of a canonical number normalises back to it. */
  lemma InternationalFormMatches(c: string)
    requires IsCanonical(c)
    ensures NormalizeSim(Some("62" + c[1..])) == Some(c)
  {
    var rest := c[1..];
    assert AllDigits(rest) by {
      assert forall k :: 0 <= k < |rest| ==> rest[k] == c[k + 1];
    }
    assert "0" + rest == c;
    CountryCodeRule(rest);
  }

  /**
   * A Jakarta sheet holding a live row and then a cancelled row, with no other
   * sheet, combines to the one record of the live row.
   */
  lemma LiveRowFrame(live: RawBillingRow, cancelled: RawBillingRow) returns (rec: BillingRecord)
    requires ToRecord(live, "Jakarta").Some? && CleanStatus(cancelled.status) == Cancelled
    ensures rec == ToRecord(live, "Jakarta").value
    ensures Concat(LoadAll(BillingSources([live, cancelled], [], []))) == [rec]
  {
    rec := ToRecord(live, "Jakarta").value;
    assert [live, cancelled] == [live] + [cancelled];
    DroppedRowIsInvisible([live], cancelled, "Jakarta");
    OneRowSheet(live, "Jakarta");
    TwoSheetFrame([live, cancelled], []);
    assert [rec] + LoadTelkomsel([], "Kalimantan") == [rec];
  }

  /**
   * The inventory tracks one number; Kalimantan bills another on a live line;
   * Jakarta is empty. Each direction reports the number the other side lacks,
   * the billed row with its fields untouched.
   */
  lemma OneMismatchEachWay(t: string, row: RawBillingRow)
    requires IsCanonical(t)
    requires NormalizeSim(row.msisdn).Some? && NormalizeSim(row.msisdn).value != t
    requires CleanStatus(row.status) != Cancelled
    ensures var tracked := TrackedIds([[Some(t)]]);
      var frame := Concat(LoadAll(BillingSources([], [row], [])));
      && FilterUntracked(frame, tracked) == [BillingRecord(NormalizeSim(row.msisdn).value, row.price, CleanStatus(row.status), "Kalimantan")]
      && MissingFromBilling(tracked, frame) == {t}
  {
    OneNumberInventory(t);
    OneRowSheet(row, "Kalimantan");
    TwoSheetFrame([], [row]);
    var rec := ToRecord(row, "Kalimantan").value;
    assert Concat(LoadAll(BillingSources([], [row], []))) == [rec];
    DisjointSingletons(t, rec);
  }

  /** One tracked number against one billed row with another number. */
  lemma DisjointSingletons(t: string, rec: BillingRecord)
    requires rec.phoneNumber != t
    ensures FilterUntracked([rec], {t}) == [rec] && MissingFromBilling({t}, [rec]) == {t}
  {
    assert [rec][..0] == [];
  }

  /** Two identical rows in one sheet collapse to one record. */
  lemma DuplicateRowsCollapse(row: RawBillingRow, region: string)
    requires ToRecord(row, region).Some?
    ensures LoadTelkomsel([row, row], region) == [ToRecord(row, region).value]
  {
    var rec := ToRecord(row, region).value;
    TwoEqualRowsTagged(row, region);
    RepeatedRecordCollapses(rec);
  }

  lemma TwoEqualRowsTagged(row: RawBillingRow, region: string)
    requires ToRecord(row, region).Some?
    ensures TaggedRows([row, row], region) == [ToRecord(row, region).value, ToRecord(row, region).value]
  {
    var x := ToRecord(row, region);
    assert ToRecords([row, row], region) == [x] + [x];
    DropMissingAppend([x], [x]);
    PresentValueKept(x.value);
  }

  lemma RepeatedRecordCollapses(rec: BillingRecord)
    ensures DropDuplicates([rec, rec]) == [rec]
  {
    assert [rec, rec][..1] == [rec] && [rec][..0] == [];
    assert DropDuplicates([rec]) == [rec];
  }

  /**
   * The same row in the Jakarta sheet and in the first optional sheet is kept
   * twice: the two records differ in their region only.
   */
  lemma SameRowInTwoSheetsKept(row: RawBillingRow)
    requires ToRecord(row, "Jakarta").Some?
    ensures var frame := Concat(LoadAll(BillingSources([row], [], [[row]])));
      && frame == [ToRecord(row, "Jakarta").value, ToRecord(row, "Extra-1").value]
      && frame[0] != frame[1]
  {
    var j, e := ToRecord(row, "Jakarta").value, ToRecord(row, "Extra-1").value;
    OneExtraSheet([row], [], [row]);
    OneRowSheet(row, "Jakarta");
    OneRowSheet(row, "Extra-1");
    assert LoadTelkomsel([], "Kalimantan") == [];
    ThreeFrames([j], [], [e]);
    assert [j] + [] + [e] == [j, e];
  }

  /** With one optional sheet the frames are Jakarta, Kalimantan and "Extra-1", in that order. */
  lemma OneExtraSheet(jakarta: seq<RawBillingRow>, kalimantan: seq<RawBillingRow>, extra: seq<RawBillingRow>)
    ensures LoadAll(BillingSources(jakarta, kalimantan, [extra]))
      == [LoadTelkomsel(jakarta, "Jakarta"), LoadTelkomsel(kalimantan, "Kalimantan"), LoadTelkomsel(extra, "Extra-1")]
  {
    FirstExtraLabel();
    var sources := BillingSources(jakarta, kalimantan, [extra]);
    assert sources[2] == (extra, "Extra-1");
  }

}
