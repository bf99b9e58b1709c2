/**
 The six sample items of the inventory view, and what the listing shows for
 them under a few criteria.
 */
module InventoryExamples {
  import opened Text
  import opened Ordering
  import opened Inventory

  const Pulpen := Item("Pulpen Pilot", "PL-001", "Alat Tulis", 120, 20, "pcs", 2500, 4000, "Aktif")
  const Buku := Item("Buku Tulis", "BK-002", "Alat Tulis", 80, 15, "pcs", 4000, 6000, "Aktif")
  const KertasA4 := Item("Kertas A4", "KT-003", "Kertas", 35, 50, "rim", 35000, 45000, "Aktif")
  const Tinta := Item("Tinta Printer", "TN-004", "Aksesoris", 10, 10, "botol", 80000, 95000, "Nonaktif")
  const Spidol := Item("Spidol Boardmarker", "SP-005", "Alat Tulis", 12, 15, "pcs", 7000, 9500, "Aktif")
  const Amplop := Item("Amplop Coklat", "AM-006", "Kertas", 0, 10, "pcs", 500, 1000, "Habis")

  const Sample: seq<Item> := [Pulpen, Buku, KertasA4, Tinta, Spidol, Amplop]

  /** `Filter` over the sample, given which of the six items pass. */
  lemma FilterSample(c: Criteria, expected: seq<Item>)
    requires expected == (if Matches(Pulpen, c) then [Pulpen] else []) +
      ((if Matches(Buku, c) then [Buku] else []) +
      ((if Matches(KertasA4, c) then [KertasA4] else []) +
      ((if Matches(Tinta, c) then [Tinta] else []) +
      ((if Matches(Spidol, c) then [Spidol] else []) +
      (if Matches(Amplop, c) then [Amplop] else [])))))
    ensures Filter(Sample, c) == expected
  {
    var s5 := [Amplop];
    var s4 := [Spidol] + s5;
    var s3 := [Tinta] + s4;
    var s2 := [KertasA4] + s3;
    var s1 := [Buku] + s2;
    assert Sample == [Pulpen] + s1;
    FilterCons(Amplop, [], c);
    assert [Amplop] + [] == s5;
    FilterCons(Spidol, s5, c);
    FilterCons(Tinta, s4, c);
    FilterCons(KertasA4, s3, c);
    FilterCons(Buku, s2, c);
    FilterCons(Pulpen, s1, c);
  }

  /** The aggregates of a two-item listing. */
  lemma SummarizePair(x: Item, y: Item)
    ensures Summarize([x, y]) == Summary(2, x.stock + y.stock,
      (if IsLow(x) then 1 else 0) + (if IsLow(y) then 1 else 0),
      x.stock * x.buyPrice + y.stock * y.buyPrice)
  {
    assert [x, y][1..] == [y] && [y][1..] == [];
    assert TotalStock([y]) == y.stock;
    assert LowStockCount([y]) == if IsLow(y) then 1 else 0;
    assert TotalValue([y]) == y.stock * y.buyPrice;
  }

  /** The category list of the sample, whatever the criteria. */
  lemma SampleCategories()
    ensures Categories(Sample) == ["Aksesoris", "Alat Tulis", "Kertas"]
  {
    var cats := ["Aksesoris", "Alat Tulis", "Kertas"];
    assert Less(cats[0], cats[1]) && Less(cats[1], cats[2]) && Less(cats[0], cats[2]);
    assert forall k :: k in cats <==> exists it :: it in Sample && it.category == k by {
      assert Tinta in Sample && Pulpen in Sample && KertasA4 in Sample;
    }
    CategoriesUnique(Sample, cats);
  }

  /** `?category=Kertas`: the two paper items, in their original order, and their totals. */
  lemma KertasQuery()
    ensures Filter(Sample, Normalize(Absent, Given("Kertas"), Absent)) == [KertasA4, Amplop]
    ensures Summarize([KertasA4, Amplop]) == Summary(2, 35, 2, 1225000)
  {
    var c := Normalize(Absent, Given("Kertas"), Absent);
    assert c == Criteria("", "Kertas", "");
    assert !Matches(Pulpen, c) && !Matches(Buku, c) && Matches(KertasA4, c);
    assert !Matches(Tinta, c) && !Matches(Spidol, c) && Matches(Amplop, c);
    FilterSample(c, [KertasA4, Amplop]);
    SummarizePair(KertasA4, Amplop);
  }

  /** `?status=Nonaktif`: only the printer ink. */
  lemma NonaktifQuery()
    ensures Filter(Sample, Normalize(Absent, Absent, Given("Nonaktif"))) == [Tinta]
    ensures Summarize([Tinta]) == Summary(1, 10, 1, 800000)
  {
    var c := Normalize(Absent, Absent, Given("Nonaktif"));
    assert c == Criteria("", "", "Nonaktif");
    assert !Matches(Pulpen, c) && !Matches(Buku, c) && !Matches(KertasA4, c);
    assert Matches(Tinta, c) && !Matches(Spidol, c) && !Matches(Amplop, c);
    FilterSample(c, [Tinta]);
    assert [Tinta][1..] == [];
    assert LowStockCount([]) == 0 && TotalStock([]) == 0 && TotalValue([]) == 0;
    assert TotalStock([Tinta]) == 10 && LowStockCount([Tinta]) == 1;
    assert TotalValue([Tinta]) == 800000;
  }

  /** "pl" occurs in the pen's search text "pulpen pilot pl-001", at the SKU. */
  lemma PenTextContainsPl()
    ensures Contains(SearchText(Pulpen), "pl")
  {
    var s := Pulpen.name + " " + Pulpen.sku;
    assert |s| == 19 && s[13] == 'P' && s[14] == 'L';
    var t := SearchText(Pulpen);
    assert t[13] == 'p' && t[14] == 'l';
    assert t[13..15] == "pl";
    assert OccursAt("pl", t, 13);
  }

  /** The free text is matched without regard to case: "pl" and "PL" both find
      the pen through its SKU "PL-001". */
  lemma PenFoundInAnyCase()
    ensures Matches(Pulpen, Normalize(Given("pl"), Absent, Absent))
    ensures Matches(Pulpen, Normalize(Given("PL"), Absent, Absent))
  {
    PenTextContainsPl();
    assert Normalize(Given("pl"), Absent, Absent) == Criteria("pl", "", "");
    assert Normalize(Given("PL"), Absent, Absent) == Criteria("pl", "", "");
  }
}
