/**
 * The brand navigator of the brand pages: which brand the page belongs to, and
 * where the previous and next arrows lead, cycling through the brand list.
 */
module BrandRolodex {
  import opened Common
  import opened Text

  datatype Brand = Brand(name: string, href: string)

  /** The configured brand list, in arrow order. */
  const Brands: seq<Brand> := [
    Brand("Pandora", "./pandora.html"),
    Brand("Kilian", "./kilian.html"),
    Brand("Frederic Malle", "./frederic-malle.html"),
    Brand("Rabanne", "./rabanne.html"),
    Brand("Too Faced", "./too-faced.html")
  ]

  /** Whether a brand's lower-cased href contains the lower-cased page file name. */
  predicate HrefMatches(b: Brand, page: string)
  {
    Contains(LowerAscii(b.href), page)
  }

  /** Brand `j` is the first whose href matches. */
  predicate FirstMatch(brands: seq<Brand>, page: string, j: int)
  {
    0 <= j < |brands| && HrefMatches(brands[j], page) && forall i :: 0 <= i < j ==> !HrefMatches(brands[i], page)
  }

  /**
   * getCurrentBrandName. `explicit` is the body's `data-brand` attribute, if any;
   * `pathname` is the page's path.
   */
  function GetCurrentBrandName(brands: seq<Brand>, explicit: Option<string>, pathname: string): (r: string)
    ensures explicit.Some? && explicit.value != "" ==> r == Trim(explicit.value)
    ensures !(explicit.Some? && explicit.value != "") ==>
      var page := LowerAscii(LastSegment(pathname));
      && ((exists k :: 0 <= k < |brands| && HrefMatches(brands[k], page)) ==> exists j :: FirstMatch(brands, page, j) && r == brands[j].name)
      && ((forall k :: 0 <= k < |brands| ==> !HrefMatches(brands[k], page)) ==> r == if |brands| > 0 then brands[0].name else "")
  {
    if explicit.Some? && explicit.value != "" then Trim(explicit.value)
    else
      var page := LowerAscii(LastSegment(pathname));
      match FirstIndex(brands, (b: Brand) => HrefMatches(b, page))
      case Some(k) => brands[k].name
      case None => if |brands| > 0 then brands[0].name else ""
  }

  /** currentIndex: `Math.max(0, findIndex(name))`. */
  function CurrentIndex(brands: seq<Brand>, name: string): (r: nat)
    ensures |brands| > 0 ==> r < |brands|
    ensures (exists k :: 0 <= k < |brands| && brands[k].name == name) ==> brands[r].name == name
    ensures (exists k :: 0 <= k < |brands| && brands[k].name == name) ==> forall k :: 0 <= k < r ==> brands[k].name != name
    ensures (forall k :: 0 <= k < |brands| ==> brands[k].name != name) ==> r == 0
  {
    match FirstIndex(brands, (b: Brand) => b.name == name)
    case Some(k) => k
    case None => 0
  }

  /** JavaScript's `%`, whose result takes the sign of the dividend. */
  function JsRem(a: int, n: int): int
    requires n > 0
  {
    if a >= 0 then a % n else -((-a) % n)
  }

  /** The index stepBrand moves to: `(current + dir + n) % n`. */
  function StepIndex(current: int, dir: int, n: int): int
    requires n > 0
  {
    JsRem(current + dir + n, n)
  }

  /** The remainder of `a` is what is left after taking `q` times `n` away, when that lies in `[0, n)`. */
  lemma RemOfMultiple(a: int, n: int, q: int)
    requires n > 0 && 0 <= a - q * n < n
    ensures a % n == a - q * n
  {
    var d := a / n;
    var r := a % n;
    assert (d - q) * n == (a - q * n) - r;
    MulSign(d - q, n);
  }

  lemma MulSign(x: int, n: int)
    requires n > 0
    ensures x >= 1 ==> x * n >= n
    ensures x <= -1 ==> x * n <= -n
  {
  }

  /** A step of one either way from a valid index stays in range and is the usual cyclic step. */
  lemma StepInRange(current: int, dir: int, n: int)
    requires 0 <= current < n && (dir == -1 || dir == 1)
    ensures 0 <= StepIndex(current, dir, n) < n
    ensures dir == 1 ==> StepIndex(current, dir, n) == if current == n - 1 then 0 else current + 1
    ensures dir == -1 ==> StepIndex(current, dir, n) == if current == 0 then n - 1 else current - 1
  {
    var a := current + dir + n;
    if a == 2 * n {
      RemOfMultiple(a, n, 2);
    } else if a >= n {
      RemOfMultiple(a, n, 1);
    } else {
      RemOfMultiple(a, n, 0);
    }
  }

  /** Previous then next returns to the start, and so does next then previous. */
  lemma StepRoundTrip(current: int, n: int)
    requires 0 <= current < n
    ensures StepIndex(StepIndex(current, -1, n), 1, n) == current
    ensures StepIndex(StepIndex(current, 1, n), -1, n) == current
  {
    StepInRange(current, -1, n);
    StepInRange(StepIndex(current, -1, n), 1, n);
    StepInRange(current, 1, n);
    StepInRange(StepIndex(current, 1, n), -1, n);
  }

  /**
   * stepBrand(dir): the address the page navigates to, if any. Nothing happens with
   * no brands, when the step lands outside the list, or when the target has no href.
   */
  function StepBrand(brands: seq<Brand>, current: int, dir: int): (r: Option<string>)
    ensures |brands| == 0 ==> r.None?
    ensures r.Some? ==> 0 <= StepIndex(current, dir, |brands|) < |brands|
    ensures r.Some? ==> r.value == brands[StepIndex(current, dir, |brands|)].href && r.value != ""
    ensures |brands| > 0 && 0 <= current < |brands| && (dir == 1 || dir == -1) ==>
      var k := StepIndex(current, dir, |brands|);
      0 <= k < |brands| && (r.Some? <==> brands[k].href != "") && (r.Some? ==> r.value == brands[k].href)
  {
    if |brands| == 0 then None
    else
      var k := StepIndex(current, dir, |brands|);
      assert 0 <= current < |brands| && (dir == 1 || dir == -1) ==> 0 <= k < |brands| by {
        if 0 <= current < |brands| && (dir == 1 || dir == -1) {
          StepInRange(current, dir, |brands|);
        }
      }
      if 0 <= k < |brands| && brands[k].href != "" then Some(brands[k].href) else None
  }

  /** On the configured list, every brand's arrows lead to a neighbour's page. */
  lemma ConfiguredStepsNavigate(current: nat, dir: int)
    requires current < |Brands| && (dir == 1 || dir == -1)
    ensures StepBrand(Brands, current, dir).Some?
  {
    var k := StepIndex(current, dir, |Brands|);
    StepInRange(current, dir, |Brands|);
    assert Brands[k].href != "" by {
      assert forall j :: 0 <= j < |Brands| ==> |Brands[j].href| > 0;
    }
  }
}
