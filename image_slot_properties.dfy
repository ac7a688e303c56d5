/**
 * What the image-slot resolver promises, stated over the fetched rows in
 * their given order: which record fills which slot, when a slot is present,
 * where every value comes from, and which changes to the input leave the
 * result alone.
 */
module ImageSlotProperties {
  import opened Wrappers
  import opened AsciiText
  import opened ImageSlots

  // ---------------------------------------------------------------------
  // Filtering by category keeps the order of the input.
  // ---------------------------------------------------------------------

  /** The number of rows of category `c` among the first `i` rows. */
  ghost function CountBefore(rows: seq<ImageRec>, c: string, i: nat): nat
    requires i <= |rows|
  {
    if i == 0 then 0 else CountBefore(rows, c, i - 1) + (if rows[i - 1].category == c then 1 else 0)
  }

  /** The number of rows of category `c`. */
  ghost function CountOf(rows: seq<ImageRec>, c: string): nat
  {
    CountBefore(rows, c, |rows|)
  }

  lemma {:induction false} FilterAppend(a: seq<ImageRec>, b: seq<ImageRec>, c: string)
    ensures Filter(a + b, c) == Filter(a, c) + Filter(b, c)
  {
    if a != [] {
      assert (a + b)[1..] == a[1..] + b;
      FilterAppend(a[1..], b, c);
    } else {
      assert a + b == b;
    }
  }

  lemma {:induction false} FilterPrefixLength(rows: seq<ImageRec>, c: string, i: nat)
    requires i <= |rows|
    ensures |Filter(rows[..i], c)| == CountBefore(rows, c, i)
  {
    if i > 0 {
      assert rows[..i] == rows[..i - 1] + [rows[i - 1]];
      FilterAppend(rows[..i - 1], [rows[i - 1]], c);
      FilterPrefixLength(rows, c, i - 1);
    }
  }

  /** `Filter` has one entry per row of category `c`, in order. */
  lemma FilterLength(rows: seq<ImageRec>, c: string)
    ensures |Filter(rows, c)| == CountOf(rows, c)
  {
    assert rows[..|rows|] == rows;
    FilterPrefixLength(rows, c, |rows|);
  }

  /** The row of category `c` at position `i` is entry number `CountBefore(rows, c, i)` of the filter. */
  lemma FilterAt(rows: seq<ImageRec>, c: string, i: nat)
    requires i < |rows| && rows[i].category == c
    ensures CountBefore(rows, c, i) < |Filter(rows, c)|
    ensures Filter(rows, c)[CountBefore(rows, c, i)] == rows[i]
  {
    assert rows == rows[..i] + rows[i..];
    FilterAppend(rows[..i], rows[i..], c);
    FilterPrefixLength(rows, c, i);
    assert rows[i..][1..] == rows[i + 1..];
    assert Filter(rows[i..], c) == [rows[i]] + Filter(rows[i + 1..], c);
  }

  // ---------------------------------------------------------------------
  // First records of a category; first keyword matches.
  // ---------------------------------------------------------------------

  /** `i` is the first row of category `c`. */
  ghost predicate FirstOfCategory(rows: seq<ImageRec>, c: string, i: int)
  {
    0 <= i < |rows| && rows[i].category == c && forall j :: 0 <= j < i ==> rows[j].category != c
  }

  ghost predicate HasCategory(rows: seq<ImageRec>, c: string)
  {
    exists i :: 0 <= i < |rows| && rows[i].category == c
  }

  lemma {:induction false} CountBeforeNone(rows: seq<ImageRec>, c: string, i: nat)
    requires i <= |rows|
    requires forall j :: 0 <= j < i ==> rows[j].category != c
    ensures CountBefore(rows, c, i) == 0
  {
    if i > 0 { CountBeforeNone(rows, c, i - 1); }
  }

  /** Some of the first `i` rows have category `c` iff their count is positive. */
  lemma {:induction false} CountPositive(rows: seq<ImageRec>, c: string, i: nat)
    requires i <= |rows|
    ensures CountBefore(rows, c, i) > 0 <==> exists j :: 0 <= j < i && rows[j].category == c
  {
    if i > 0 {
      CountPositive(rows, c, i - 1);
    }
  }

  /** `hero` and `deployment`: present iff a row has the category, and then the first such row's URL. */
  lemma {:induction false} FirstUrlRule(rows: seq<ImageRec>, c: string)
    ensures FirstUrl(Filter(rows, c)).Some? <==> HasCategory(rows, c)
    ensures forall i :: FirstOfCategory(rows, c, i) ==> FirstUrl(Filter(rows, c)) == Some(rows[i].publicUrl)
  {
    forall i | FirstOfCategory(rows, c, i)
      ensures FirstUrl(Filter(rows, c)) == Some(rows[i].publicUrl)
    {
      CountBeforeNone(rows, c, i);
      FilterAt(rows, c, i);
    }
    if HasCategory(rows, c) {
      var i :| 0 <= i < |rows| && rows[i].category == c;
      assert rows[i] in Filter(rows, c);
    }
  }

  /** `i` is the first row of category `c` whose alt text mentions one of `keywords`. */
  ghost predicate FirstMatchOfCategory(rows: seq<ImageRec>, c: string, keywords: seq<string>, i: int)
  {
    0 <= i < |rows| && rows[i].category == c && Matches(rows[i], keywords)
    && forall j :: 0 <= j < i && rows[j].category == c ==> !Matches(rows[j], keywords)
  }

  ghost predicate HasMatchOfCategory(rows: seq<ImageRec>, c: string, keywords: seq<string>)
  {
    exists i :: 0 <= i < |rows| && rows[i].category == c && Matches(rows[i], keywords)
  }

  /** Searching the filtered list finds the first matching row of the whole input. */
  lemma {:induction false} FindAfterFilter(rows: seq<ImageRec>, c: string, keywords: seq<string>, i: int)
    requires FirstMatchOfCategory(rows, c, keywords, i)
    ensures Find(Filter(rows, c), keywords) == Some(rows[i])
  {
    var rest := Filter(rows[1..], c);
    if rows[0].category != c {
      assert Filter(rows, c) == rest;
      FindAfterFilter(rows[1..], c, keywords, i - 1);
    } else if i == 0 {
      assert Filter(rows, c) == [rows[0]] + rest;
    } else {
      assert Filter(rows, c) == [rows[0]] + rest;
      assert ([rows[0]] + rest)[1..] == rest;
      assert !Matches(rows[0], keywords);
      FindAfterFilter(rows[1..], c, keywords, i - 1);
    }
  }

  /** The search over the filtered list succeeds iff some row of the category matches. */
  lemma {:induction false} FindAfterFilterSome(rows: seq<ImageRec>, c: string, keywords: seq<string>)
    ensures Find(Filter(rows, c), keywords).Some? <==> HasMatchOfCategory(rows, c, keywords)
  {
    var f := Filter(rows, c);
    if Find(f, keywords).Some? {
      var k :| 0 <= k < |f| && Matches(f[k], keywords);
      assert f[k] in f;
      var i :| 0 <= i < |rows| && rows[i] == f[k];
      assert rows[i].category == c && Matches(rows[i], keywords);
    }
    if HasMatchOfCategory(rows, c, keywords) {
      var i :| 0 <= i < |rows| && rows[i].category == c && Matches(rows[i], keywords);
      FilterAt(rows, c, i);
    }
  }

  // ---------------------------------------------------------------------
  // Focus slots in general.
  // ---------------------------------------------------------------------

  predicate IsFocus(slot: Slot)
  {
    slot == Focus1 || slot == Focus2 || slot == Focus3
  }

  /** The keywords of a focus slot. */
  function KeywordsOf(slot: Slot): seq<string>
    requires IsFocus(slot)
  {
    match slot
    case Focus1 => Focus1Keywords
    case Focus2 => Focus2Keywords
    case Focus3 => Focus3Keywords
  }

  /** The fallback position of a focus slot in the focus list. */
  function PositionOf(slot: Slot): nat
    requires IsFocus(slot)
  {
    match slot
    case Focus1 => 0
    case Focus2 => 1
    case Focus3 => 2
  }

  lemma ResolveFocus(rows: seq<ImageRec>, slot: Slot)
    requires IsFocus(slot)
    ensures Resolve(rows).Get(slot) == FocusSlotValue(Filter(rows, FocusCategory), PositionOf(slot), KeywordsOf(slot))
  {
  }

  /**
   * Keyword rule: when a focus row matches the slot's keywords, the slot holds
   * the URL of the first such row (provided that URL is not empty; see
   * `EmptyKeywordUrlFallsBack`).
   */
  lemma FocusKeywordRule(rows: seq<ImageRec>, slot: Slot, i: int)
    requires IsFocus(slot)
    requires FirstMatchOfCategory(rows, FocusCategory, KeywordsOf(slot), i)
    requires rows[i].publicUrl != ""
    ensures slot in ImageMap(rows) && ImageMap(rows)[slot] == rows[i].publicUrl
  {
    FindAfterFilter(rows, FocusCategory, KeywordsOf(slot), i);
    ResolveFocus(rows, slot);
  }

  /**
   * A keyword match whose URL is the empty string is falsy, so the positional
   * fallback overwrites it when the focus list is long enough; otherwise the
   * empty string stays.
   */
  lemma EmptyKeywordUrlFallsBack(rows: seq<ImageRec>, slot: Slot, i: int)
    requires IsFocus(slot)
    requires FirstMatchOfCategory(rows, FocusCategory, KeywordsOf(slot), i)
    requires rows[i].publicUrl == ""
    ensures slot in ImageMap(rows)
    ensures CountOf(rows, FocusCategory) <= PositionOf(slot) ==> ImageMap(rows)[slot] == ""
    ensures forall j :: 0 <= j < |rows| && rows[j].category == FocusCategory
                        && CountBefore(rows, FocusCategory, j) == PositionOf(slot)
                        ==> ImageMap(rows)[slot] == rows[j].publicUrl
  {
    FindAfterFilter(rows, FocusCategory, KeywordsOf(slot), i);
    ResolveFocus(rows, slot);
    FilterLength(rows, FocusCategory);
    forall j | 0 <= j < |rows| && rows[j].category == FocusCategory
                && CountBefore(rows, FocusCategory, j) == PositionOf(slot)
      ensures ImageMap(rows)[slot] == rows[j].publicUrl
    {
      FilterAt(rows, FocusCategory, j);
    }
  }

  /**
   * Positional fallback: when no focus row matches the slot's keywords, the
   * slot is present iff the focus list reaches its position, and then holds
   * the URL of the focus row at that position.
   */
  lemma FocusFallbackRule(rows: seq<ImageRec>, slot: Slot)
    requires IsFocus(slot)
    requires !HasMatchOfCategory(rows, FocusCategory, KeywordsOf(slot))
    ensures slot in ImageMap(rows) <==> PositionOf(slot) < CountOf(rows, FocusCategory)
    ensures forall j :: 0 <= j < |rows| && rows[j].category == FocusCategory
                        && CountBefore(rows, FocusCategory, j) == PositionOf(slot)
                        ==> slot in ImageMap(rows) && ImageMap(rows)[slot] == rows[j].publicUrl
  {
    FindAfterFilterSome(rows, FocusCategory, KeywordsOf(slot));
    ResolveFocus(rows, slot);
    FilterLength(rows, FocusCategory);
    forall j | 0 <= j < |rows| && rows[j].category == FocusCategory
                && CountBefore(rows, FocusCategory, j) == PositionOf(slot)
      ensures slot in ImageMap(rows) && ImageMap(rows)[slot] == rows[j].publicUrl
    {
      FilterAt(rows, FocusCategory, j);
    }
  }

  // ---------------------------------------------------------------------
  // The five slots.
  // ---------------------------------------------------------------------

  lemma HeroRule(rows: seq<ImageRec>)
    ensures Hero in ImageMap(rows) <==> HasCategory(rows, HeroCategory)
    ensures forall i :: FirstOfCategory(rows, HeroCategory, i)
                        ==> Hero in ImageMap(rows) && ImageMap(rows)[Hero] == rows[i].publicUrl
  {
    var m := Resolve(rows);
    assert m.Get(Hero) == FirstUrl(Filter(rows, HeroCategory));
    FirstUrlRule(rows, HeroCategory);
  }

  lemma DeploymentRule(rows: seq<ImageRec>)
    ensures Deployment in ImageMap(rows) <==> HasCategory(rows, DeploymentCategory)
    ensures forall i :: FirstOfCategory(rows, DeploymentCategory, i)
                        ==> Deployment in ImageMap(rows) && ImageMap(rows)[Deployment] == rows[i].publicUrl
  {
    var m := Resolve(rows);
    assert m.Get(Deployment) == FirstUrl(Filter(rows, DeploymentCategory));
    FirstUrlRule(rows, DeploymentCategory);
  }

  /** A focus slot is present iff a keyword match exists or the focus list reaches its position. */
  lemma FocusSlotPresence(rows: seq<ImageRec>, slot: Slot)
    requires IsFocus(slot)
    ensures slot in ImageMap(rows) <==>
              HasMatchOfCategory(rows, FocusCategory, KeywordsOf(slot)) || PositionOf(slot) < CountOf(rows, FocusCategory)
  {
    ResolveFocus(rows, slot);
    FindAfterFilterSome(rows, FocusCategory, KeywordsOf(slot));
    FilterLength(rows, FocusCategory);
  }

  /**
   * `focus1` is present iff there is a focus row at all: any keyword match is
   * itself a focus row, and any focus row reaches position 0.
   */
  lemma {:induction false} Focus1Presence(rows: seq<ImageRec>)
    ensures Focus1 in ImageMap(rows) <==> HasCategory(rows, FocusCategory)
  {
    FocusSlotPresence(rows, Focus1);
    CountPositive(rows, FocusCategory, |rows|);
    if HasMatchOfCategory(rows, FocusCategory, Focus1Keywords) {
      var i :| 0 <= i < |rows| && rows[i].category == FocusCategory && Matches(rows[i], Focus1Keywords);
      assert HasCategory(rows, FocusCategory);
    }
  }

  /** Every value in the map is the URL of an input row whose category fits the slot. */
  lemma Soundness(rows: seq<ImageRec>)
    ensures forall slot :: slot in ImageMap(rows) ==>
              exists i :: 0 <= i < |rows| && rows[i].category == SlotCategory(slot)
                          && rows[i].publicUrl == ImageMap(rows)[slot]
  {
    forall slot | slot in ImageMap(rows)
      ensures exists i :: 0 <= i < |rows| && rows[i].category == SlotCategory(slot)
                          && rows[i].publicUrl == ImageMap(rows)[slot]
    {
      var images := Filter(rows, SlotCategory(slot));
      var found := Find(images, if IsFocus(slot) then KeywordsOf(slot) else []);
      // The value is the URL of some entry of the slot's filtered list.
      var k: nat;
      if slot == Hero || slot == Deployment {
        k := 0;
      } else {
        ResolveFocus(rows, slot);
        var byKeyword := KeywordUrl(images, KeywordsOf(slot));
        if byKeyword.Some? && (byKeyword.value != "" || PositionOf(slot) >= |images|) {
          var j :| FirstMatch(images, KeywordsOf(slot), j) && images[j] == found.value;
          k := j;
        } else {
          k := PositionOf(slot);
        }
      }
      assert images[k].publicUrl == ImageMap(rows)[slot];
      assert images[k] in images;
    }
  }

  // ---------------------------------------------------------------------
  // What does not affect the result.
  // ---------------------------------------------------------------------

  /** `b` is `a` with the letter case of its alt text changed. */
  ghost predicate RecasedRecord(a: ImageRec, b: ImageRec)
  {
    a.category == b.category && a.publicUrl == b.publicUrl && a.altText.Some? == b.altText.Some?
    && (a.altText.Some? ==> Recased(a.altText.value, b.altText.value))
  }

  ghost predicate RecasedRows(a: seq<ImageRec>, b: seq<ImageRec>)
  {
    |a| == |b| && forall i :: 0 <= i < |a| ==> RecasedRecord(a[i], b[i])
  }

  lemma MatchesRecased(a: ImageRec, b: ImageRec, keywords: seq<string>)
    requires RecasedRecord(a, b)
    ensures Matches(a, keywords) == Matches(b, keywords)
  {
    if a.altText.Some? {
      RecasedLowerEqual(a.altText.value, b.altText.value);
    }
  }

  lemma {:induction false} FilterRecased(a: seq<ImageRec>, b: seq<ImageRec>, c: string)
    requires RecasedRows(a, b)
    ensures RecasedRows(Filter(a, c), Filter(b, c))
  {
    if a != [] {
      FilterRecased(a[1..], b[1..], c);
    }
  }

  lemma {:induction false} KeywordUrlRecased(a: seq<ImageRec>, b: seq<ImageRec>, keywords: seq<string>)
    requires RecasedRows(a, b)
    ensures KeywordUrl(a, keywords) == KeywordUrl(b, keywords)
  {
    if a != [] {
      MatchesRecased(a[0], b[0], keywords);
      KeywordUrlRecased(a[1..], b[1..], keywords);
    }
  }

  /** Changing the letter case of any alt text does not change the image map. */
  lemma CaseInsensitive(a: seq<ImageRec>, b: seq<ImageRec>)
    requires RecasedRows(a, b)
    ensures ImageMap(a) == ImageMap(b)
  {
    FilterRecased(a, b, HeroCategory);
    FilterRecased(a, b, FocusCategory);
    FilterRecased(a, b, DeploymentCategory);
    var fa, fb := Filter(a, FocusCategory), Filter(b, FocusCategory);
    KeywordUrlRecased(fa, fb, Focus1Keywords);
    KeywordUrlRecased(fa, fb, Focus2Keywords);
    KeywordUrlRecased(fa, fb, Focus3Keywords);
    assert Resolve(a) == Resolve(b);
  }

  /** The image map depends on the input only through its three category lists. */
  lemma SameListsSameMap(a: seq<ImageRec>, b: seq<ImageRec>)
    requires Filter(a, HeroCategory) == Filter(b, HeroCategory)
    requires Filter(a, FocusCategory) == Filter(b, FocusCategory)
    requires Filter(a, DeploymentCategory) == Filter(b, DeploymentCategory)
    ensures ImageMap(a) == ImageMap(b)
  {
  }

  /** Removing a row of category `c'` does not change the list of category `c`. */
  lemma FilterSkips(a: seq<ImageRec>, x: ImageRec, b: seq<ImageRec>, c: string)
    requires x.category != c
    ensures Filter(a + [x] + b, c) == Filter(a + b, c)
  {
    FilterAppend(a + [x], b, c);
    FilterAppend(a, [x], c);
    FilterAppend(a, b, c);
  }

  /** A row whose category is none of `hero`, `focus`, `deployment` never affects the image map. */
  lemma OtherCategoryIgnored(a: seq<ImageRec>, x: ImageRec, b: seq<ImageRec>)
    requires x.category != HeroCategory && x.category != FocusCategory && x.category != DeploymentCategory
    ensures ImageMap(a + [x] + b) == ImageMap(a + b)
  {
    FilterSkips(a, x, b, HeroCategory);
    FilterSkips(a, x, b, FocusCategory);
    FilterSkips(a, x, b, DeploymentCategory);
    SameListsSameMap(a + [x] + b, a + b);
  }

  /**
   * The focus slots are chosen independently: one row whose alt text names
   * keywords of two slots fills both, even where the positional fallback
   * would have chosen another row.
   */
  lemma OneRowFillsTwoSlots()
    ensures var rows := [ImageRec("focus", Some("Urban Rapid Response"), "a"), ImageRec("focus", None, "b")];
            Focus1 in ImageMap(rows) && Focus2 in ImageMap(rows)
            && ImageMap(rows)[Focus1] == ImageMap(rows)[Focus2] == "a"
  {
    var rows := [ImageRec("focus", Some("Urban Rapid Response"), "a"), ImageRec("focus", None, "b")];
    var lower := ToLower("Urban Rapid Response");
    assert lower[..5] == "urban";
    assert OccursAt(lower, "urban", 0);
    assert "urban" in Focus1Keywords && Contains(lower, "urban");
    assert lower[6..11] == "rapid";
    assert OccursAt(lower, "rapid", 6);
    assert "rapid" in Focus2Keywords && Contains(lower, "rapid");
    assert Matches(rows[0], Focus1Keywords);
    assert Matches(rows[0], Focus2Keywords);
    assert FirstMatchOfCategory(rows, FocusCategory, Focus1Keywords, 0);
    assert FirstMatchOfCategory(rows, FocusCategory, Focus2Keywords, 0);
    FocusKeywordRule(rows, Focus1, 0);
    FocusKeywordRule(rows, Focus2, 0);
  }
}
