/**
 * The image-slot resolver of the landing page: from the rows of the `images`
 * table, in the order the query returned them, it builds the record that maps
 * the page's five image slots (`hero`, `focus1`, `focus2`, `focus3`,
 * `deployment`) to public URLs.
 *
 * `ImageMap` is the resolver as a pure two-phase definition (keyword pass,
 * then positional fallback); `BuildImageMap` is the resolver as the source
 * writes it, a sequence of guarded writes into a dictionary, proved to build
 * exactly `ImageMap`.
 */
module ImageSlots {
  import opened Wrappers
  import opened AsciiText

  /** One row of the `images` table, reduced to the columns the resolver reads. */
  datatype ImageRec = ImageRec(category: string, altText: Option<string>, publicUrl: string)

  // Category values the resolver filters on.
  const HeroCategory: string := "hero"
  const FocusCategory: string := "focus"
  const DeploymentCategory: string := "deployment"

  /** The keys of the resulting image map; `Name` is the key as the page reads it. */
  datatype Slot = Hero | Focus1 | Focus2 | Focus3 | Deployment
  {
    function Name(): string
    {
      match this
      case Hero => "hero"
      case Focus1 => "focus1"
      case Focus2 => "focus2"
      case Focus3 => "focus3"
      case Deployment => "deployment"
    }
  }

  // The keywords that attract a focus image to each focus slot.
  const Focus1Keywords: seq<string> := ["interface", "barrier", "urban"]
  const Focus2Keywords: seq<string> := ["rapid", "spot", "extinguish"]
  const Focus3Keywords: seq<string> := ["prescribed", "burn", "controlled"]

  /** The category a slot's image is drawn from. */
  function SlotCategory(slot: Slot): string
  {
    match slot
    case Hero => HeroCategory
    case Deployment => DeploymentCategory
    case _ => FocusCategory
  }

  /** `rows.filter(img => img.category === c)`: the rows of category `c`, in order. */
  function Filter(rows: seq<ImageRec>, c: string): (r: seq<ImageRec>)
    ensures |r| <= |rows|
    ensures forall x :: x in r ==> x in rows && x.category == c
    ensures forall i :: 0 <= i < |rows| && rows[i].category == c ==> rows[i] in r
  {
    if rows == [] then []
    else (if rows[0].category == c then [rows[0]] else []) + Filter(rows[1..], c)
  }

  /**
   * The keyword predicate of one focus slot: the record has an `alt_text`
   * whose lower-cased form contains one of the keywords. A record without
   * `alt_text` never matches (`alt_text?.toLowerCase()` is `undefined`).
   */
  predicate Matches(img: ImageRec, keywords: seq<string>)
  {
    img.altText.Some? && exists k :: k in keywords && Contains(ToLower(img.altText.value), k)
  }

  /** `i` is the position of the first record of `images` that matches `keywords`. */
  ghost predicate FirstMatch(images: seq<ImageRec>, keywords: seq<string>, i: int)
  {
    0 <= i < |images| && Matches(images[i], keywords)
    && forall j :: 0 <= j < i ==> !Matches(images[j], keywords)
  }

  /** `images.find(...)` with the keyword predicate: the first matching record, if any. */
  function Find(images: seq<ImageRec>, keywords: seq<string>): (r: Option<ImageRec>)
    ensures r.None? <==> forall i :: 0 <= i < |images| ==> !Matches(images[i], keywords)
    ensures r.Some? ==> exists i :: FirstMatch(images, keywords, i) && images[i] == r.value
  {
    if images == [] then None
    else if Matches(images[0], keywords) then
      assert FirstMatch(images, keywords, 0);
      Some(images[0])
    else
      var r := Find(images[1..], keywords);
      assert r.Some? ==> exists i :: FirstMatch(images, keywords, i) && images[i] == r.value by {
        if r.Some? {
          var i :| FirstMatch(images[1..], keywords, i) && images[1..][i] == r.value;
          assert FirstMatch(images, keywords, i + 1);
        }
      }
      assert r.None? ==> forall i :: 0 <= i < |images| ==> !Matches(images[i], keywords) by {
        if r.None? {
          forall i | 0 <= i < |images| ensures !Matches(images[i], keywords) {
            if i > 0 { assert images[i] == images[1..][i - 1]; }
          }
        }
      }
      r
  }

  /** The first record of a filtered list, as `list.length > 0 ? list[0].public_url : unset`. */
  function FirstUrl(images: seq<ImageRec>): (r: Option<string>)
    ensures r.Some? <==> |images| > 0
    ensures r.Some? ==> r.value == images[0].publicUrl
  {
    if |images| > 0 then Some(images[0].publicUrl) else None
  }

  /** Keyword phase of one focus slot: the URL of the first matching focus record, if any. */
  function KeywordUrl(focus: seq<ImageRec>, keywords: seq<string>): (r: Option<string>)
    ensures r.Some? <==> exists i :: 0 <= i < |focus| && Matches(focus[i], keywords)
    ensures forall i :: FirstMatch(focus, keywords, i) ==> r == Some(focus[i].publicUrl)
  {
    var found := Find(focus, keywords);
    assert forall i :: FirstMatch(focus, keywords, i) ==> found == Some(focus[i]) by {
      forall i | FirstMatch(focus, keywords, i) ensures found == Some(focus[i]) {
        var j :| FirstMatch(focus, keywords, j) && focus[j] == found.value;
        assert !(j < i) && !(i < j);
      }
    }
    if found.Some? then Some(found.value.publicUrl) else None
  }

  /**
   * Fallback phase of focus slot number `n + 1` (n = 0, 1, 2): when the
   * keyword phase left the slot unset or holding the empty string (the source
   * tests `!imageMap.focusN`, and `""` is falsy), the `n`-th focus record
   * replaces it, if there is one.
   */
  function Fallback(focus: seq<ImageRec>, n: nat, byKeyword: Option<string>): (r: Option<string>)
    ensures r.Some? <==> byKeyword.Some? || n < |focus|
  {
    if byKeyword.Some? && byKeyword.value != "" then byKeyword
    else if n < |focus| then Some(focus[n].publicUrl)
    else byKeyword
  }

  /** The value of focus slot number `n + 1`: the keyword phase, then the fallback phase. */
  function FocusSlotValue(focus: seq<ImageRec>, n: nat, keywords: seq<string>): (r: Option<string>)
    ensures r.Some? <==> Find(focus, keywords).Some? || n < |focus|
  {
    Fallback(focus, n, KeywordUrl(focus, keywords))
  }

  /** The five optional slot values the resolver produces. */
  datatype SlotValues = SlotValues(hero: Option<string>, focus1: Option<string>, focus2: Option<string>,
                                   focus3: Option<string>, deployment: Option<string>)
  {
    function Get(slot: Slot): Option<string>
    {
      match slot
      case Hero => hero
      case Focus1 => focus1
      case Focus2 => focus2
      case Focus3 => focus3
      case Deployment => deployment
    }

    /** These values with `slot` replaced by `v` and every other slot kept. */
    function With(slot: Slot, v: Option<string>): (r: SlotValues)
      ensures r.Get(slot) == v
      ensures forall other :: other != slot ==> r.Get(other) == Get(other)
    {
      match slot
      case Hero => this.(hero := v)
      case Focus1 => this.(focus1 := v)
      case Focus2 => this.(focus2 := v)
      case Focus3 => this.(focus3 := v)
      case Deployment => this.(deployment := v)
    }

    /** The dictionary with one key per set slot. */
    function ToMap(): (m: map<Slot, string>)
      ensures forall slot :: slot in m <==> Get(slot).Some?
      ensures forall slot :: slot in m ==> m[slot] == Get(slot).value
    {
      map slot | slot in {Hero, Focus1, Focus2, Focus3, Deployment} && Get(slot).Some? :: Get(slot).value
    }
  }

  const NoSlots: SlotValues := SlotValues(None, None, None, None, None)

  /** Writing a key of the dictionary is setting that slot. */
  lemma WriteSlot(v: SlotValues, slot: Slot, url: string)
    ensures v.ToMap()[slot := url] == v.With(slot, Some(url)).ToMap()
  {
  }

  /** The slot values the resolver computes from the fetched rows, slot by slot. */
  function Resolve(rows: seq<ImageRec>): (r: SlotValues)
    ensures r.hero.Some? <==> |Filter(rows, HeroCategory)| > 0
    ensures r.deployment.Some? <==> |Filter(rows, DeploymentCategory)| > 0
    ensures r.focus1.Some? <==> |Filter(rows, FocusCategory)| > 0
    ensures r.focus2.Some? || r.focus3.Some? ==> r.focus1.Some?
  {
    var focus := Filter(rows, FocusCategory);
    SlotValues(
      FirstUrl(Filter(rows, HeroCategory)),
      FocusSlotValue(focus, 0, Focus1Keywords),
      FocusSlotValue(focus, 1, Focus2Keywords),
      FocusSlotValue(focus, 2, Focus3Keywords),
      FirstUrl(Filter(rows, DeploymentCategory)))
  }

  /** The image map the resolver builds from the fetched rows. */
  function ImageMap(rows: seq<ImageRec>): (m: map<Slot, string>)
    ensures rows == [] ==> m == map[]
    ensures Focus1 !in m ==> Focus2 !in m && Focus3 !in m
  {
    Resolve(rows).ToMap()
  }

  /** A query that returned no data fills no slot. */
  lemma NoDataNoSlots()
    ensures ImageMap(Rows(None)) == map[]
  {
  }

  /** Distinct slots have distinct string keys, so a `Slot`-keyed map stands for the page's record. */
  lemma SlotNamesDistinct(a: Slot, b: Slot)
    requires a != b
    ensures a.Name() != b.Name()
  {
  }

  /** The rows a query result stands for: `null` data counts as no rows. */
  function Rows(allImages: Option<seq<ImageRec>>): (r: seq<ImageRec>)
    ensures allImages.Some? ==> r == allImages.value
    ensures allImages.None? ==> r == []
  {
    if allImages.Some? then allImages.value else []
  }

  /** JavaScript truthiness of `imageMap[key]`: set and not the empty string. */
  predicate Truthy(m: map<Slot, string>, key: Slot): (r: bool)
    ensures r <==> key in m && |m[key]| > 0
  {
    key in m && m[key] != ""
  }

  /**
   * The first-record assignment used for `hero` and `deployment`: when the
   * category list is non-empty, its first record's URL is written to `slot`.
   */
  method AssignFirst(imageMap: map<Slot, string>, ghost slots: SlotValues, slot: Slot, images: seq<ImageRec>)
    returns (result: map<Slot, string>)
    requires imageMap == slots.ToMap()
    requires slots.Get(slot).None?
    ensures result == slots.With(slot, FirstUrl(images)).ToMap()
  {
    result := imageMap;
    if |images| > 0 {
      WriteSlot(slots, slot, images[0].publicUrl);
      result := result[slot := images[0].publicUrl];
    }
  }

  /**
   * The keyword pass of one focus slot: if the slot is not yet truthy, the
   * first focus record whose alt text mentions a keyword fills it.
   */
  method AssignByKeyword(imageMap: map<Slot, string>, ghost slots: SlotValues, slot: Slot,
                         focusImages: seq<ImageRec>, keywords: seq<string>)
    returns (result: map<Slot, string>)
    requires imageMap == slots.ToMap()
    requires slots.Get(slot).None?
    ensures result == slots.With(slot, KeywordUrl(focusImages, keywords)).ToMap()
  {
    result := imageMap;
    if !Truthy(result, slot) {
      var found := Find(focusImages, keywords);
      if found.Some? {
        WriteSlot(slots, slot, found.value.publicUrl);
        result := result[slot := found.value.publicUrl];
      }
    }
  }

  /**
   * The positional fallback of one focus slot: if the slot is still not
   * truthy and the focus list has a record at position `n`, that record
   * fills it.
   */
  method AssignByPosition(imageMap: map<Slot, string>, ghost slots: SlotValues, slot: Slot,
                          focusImages: seq<ImageRec>, n: nat)
    returns (result: map<Slot, string>)
    requires imageMap == slots.ToMap()
    ensures result == slots.With(slot, Fallback(focusImages, n, slots.Get(slot))).ToMap()
  {
    result := imageMap;
    if |focusImages| > n && !Truthy(result, slot) {
      WriteSlot(slots, slot, focusImages[n].publicUrl);
      result := result[slot := focusImages[n].publicUrl];
    }
  }

  /**
   * The resolver as written: guarded writes into an initially empty
   * dictionary, hero first, then the keyword pass and the positional fallback
   * of the three focus slots, then deployment.
   */
  method BuildImageMap(allImages: Option<seq<ImageRec>>) returns (imageMap: map<Slot, string>)
    ensures imageMap == ImageMap(Rows(allImages))
    ensures allImages.None? ==> imageMap == map[]
  {
    // `slots` follows the dictionary: imageMap == slots.ToMap() after every step.
    ghost var rows := Rows(allImages);
    ghost var slots := NoSlots;
    imageMap := map[];

    var heroImages := Filter(Rows(allImages), HeroCategory);
    imageMap := AssignFirst(imageMap, slots, Hero, heroImages);
    slots := slots.With(Hero, FirstUrl(heroImages));

    var focusImages := Filter(Rows(allImages), FocusCategory);

    imageMap := AssignByKeyword(imageMap, slots, Focus1, focusImages, Focus1Keywords);
    slots := slots.With(Focus1, KeywordUrl(focusImages, Focus1Keywords));
    imageMap := AssignByKeyword(imageMap, slots, Focus2, focusImages, Focus2Keywords);
    slots := slots.With(Focus2, KeywordUrl(focusImages, Focus2Keywords));
    imageMap := AssignByKeyword(imageMap, slots, Focus3, focusImages, Focus3Keywords);
    slots := slots.With(Focus3, KeywordUrl(focusImages, Focus3Keywords));

    imageMap := AssignByPosition(imageMap, slots, Focus1, focusImages, 0);
    slots := slots.With(Focus1, Fallback(focusImages, 0, slots.focus1));
    imageMap := AssignByPosition(imageMap, slots, Focus2, focusImages, 1);
    slots := slots.With(Focus2, Fallback(focusImages, 1, slots.focus2));
    imageMap := AssignByPosition(imageMap, slots, Focus3, focusImages, 2);
    slots := slots.With(Focus3, Fallback(focusImages, 2, slots.focus3));

    var deploymentImages := Filter(Rows(allImages), DeploymentCategory);
    imageMap := AssignFirst(imageMap, slots, Deployment, deploymentImages);
    slots := slots.With(Deployment, FirstUrl(deploymentImages));

    assert slots == Resolve(rows);
  }
}
