/** Colours on the hue circle, and how many of them can keep their distance. */
module HueCircle {

  datatype Hsv = Hsv(valid: bool, alpha: int, hue: int, saturation: int, value: int)

  /** The toolkit reports a hue of -1 for greys and one in 0..359 for everything else. */
  type Color = c: Hsv | -1 <= c.hue < 360 && (c.saturation > 0 ==> c.hue >= 0)
    witness Hsv(false, 0, -1, 0, 0)

  /** Opaque, bright and saturated enough to stand out. */
  predicate IsInterestingAccent(c: Color) {
    c.valid && c.alpha >= 60 && c.value >= 60 && c.saturation >= 45
  }

  function HueDistance(a: Color, b: Color): int {
    var d := if a.hue >= b.hue then a.hue - b.hue else b.hue - a.hue;
    if d > 180 then 360 - d else d
  }

  predicate Near(a: Color, b: Color) { HueDistance(a, b) < 25 }

  predicate HasNear(c: Color, list: seq<Color>) {
    exists k :: 0 <= k < |list| && Near(c, list[k])
  }

  /** No two entries share a hue. */
  ghost predicate Spaced(list: seq<Color>) {
    forall i, j :: 0 <= i < j < |list| ==> !Near(list[j], list[i])
  }

  // ---------- How many fit ----------

  /** y is one of the n hues from h on. */
  predicate InArc(y: int, h: int, n: int) {
    h <= y < h + n || h <= y + 360 < h + n
  }

  ghost function Arc(h: int, n: nat): set<int> {
    set y | 0 <= y < 360 && InArc(y, h, n)
  }

  lemma {:induction false} ArcSize(h: int, n: nat)
    requires 0 <= h < 360 && n <= 360
    ensures |Arc(h, n)| == n
  {
    if n == 0 {
      assert (forall y :: y !in Arc(h, 0)) ==> Arc(h, 0) == {};
    } else {
      ArcSize(h, n - 1);
      var last := if h + n - 1 < 360 then h + n - 1 else h + n - 361;
      assert Arc(h, n) == Arc(h, n - 1) + {last};
    }
  }

  lemma ArcsApart(a: Color, b: Color)
    requires a.hue >= 0 && b.hue >= 0 && !Near(a, b)
    ensures Arc(a.hue, 25) !! Arc(b.hue, 25)
  {
    assert forall y :: 0 <= y < 360 && InArc(y, a.hue, 25) ==> !InArc(y, b.hue, 25);
  }

  ghost function Covered(list: seq<Color>): set<int>
    requires forall c :: c in list ==> c.hue >= 0
  {
    if list == [] then {} else Covered(list[..|list| - 1]) + Arc(list[|list| - 1].hue, 25)
  }

  lemma {:induction false} CoveredIsApart(list: seq<Color>, c: Color)
    requires c.hue >= 0 && forall d :: d in list ==> d.hue >= 0
    requires !HasNear(c, list)
    ensures Covered(list) !! Arc(c.hue, 25)
  {
    if list == [] {
    } else {
      var rest := list[..|list| - 1];
      assert forall k :: 0 <= k < |rest| ==> rest[k] == list[k];
      CoveredIsApart(rest, c);
      ArcsApart(list[|list| - 1], c);
    }
  }

  lemma {:induction false} CoveredSize(list: seq<Color>)
    requires Spaced(list) && forall c :: c in list ==> c.hue >= 0
    ensures |Covered(list)| == 25 * |list|
    ensures forall x :: x in Covered(list) ==> 0 <= x < 360
  {
    if list == [] {
    } else {
      var rest, last := list[..|list| - 1], list[|list| - 1];
      CoveredSize(rest);
      CoveredIsApart(rest, last);
      ArcSize(last.hue, 25);
    }
  }

  lemma {:induction false} SubsetSize(s: set<int>, n: nat)
    requires forall x :: x in s ==> 0 <= x < n
    ensures |s| <= n
  {
    if n > 0 {
      SubsetSize(s - {n - 1}, n - 1);
    } else {
      assert (forall x :: x !in s) ==> s == {};
    }
  }

  /** Fifteen hues on a circle of 360 degrees cannot all be 25 degrees apart. */
  lemma AtMostFourteen(list: seq<Color>)
    requires Spaced(list) && forall c :: c in list ==> c.hue >= 0
    ensures |list| <= 14
  {
    CoveredSize(list);
    SubsetSize(Covered(list), 360);
  }

  // ---------- Collecting ----------

  predicate AllInteresting(list: seq<Color>) { forall c :: c in list ==> IsInterestingAccent(c) }

  /** Each colour in turn joins the list unless its hue is taken. */
  function TakeAll(list: seq<Color>, offers: seq<Color>): seq<Color>
    decreases |offers|
  {
    if offers == [] then list
    else TakeAll(if HasNear(offers[0], list) then list else list + [offers[0]], offers[1..])
  }

  lemma {:induction false} TakenKeeps(list: seq<Color>, offers: seq<Color>)
    ensures list <= TakeAll(list, offers)
    decreases |offers|
  {
    hide HasNear;
    if offers == [] {
    } else {
      TakenKeeps(if HasNear(offers[0], list) then list else list + [offers[0]], offers[1..]);
    }
  }

  /** All offers are within 25 degrees of the first. */
  ghost predicate OneHue(offers: seq<Color>) {
    forall k :: 0 <= k < |offers| ==> Near(offers[k], offers[0])
  }

  /** This asks for less than that they are all close to each other. */
  lemma OneHueIsNotPairwise()
    ensures var a, b, c := AtHue(15), AtHue(0), AtHue(30); OneHue([a, b, c]) && !Near(b, c)
  {}

  function AtHue(h: int): (c: Color)
    requires 0 <= h < 360
    ensures IsInterestingAccent(c) && c.hue == h
  {
    Hsv(true, 255, h, 255, 255)
  }

  /** Of three hues around one, two are close to each other. */
  lemma NoThreeAround(a: Color, x: Color, y: Color, z: Color)
    requires Near(x, a) && Near(y, a) && Near(z, a)
    ensures Near(x, y) || Near(z, x) || Near(z, y)
  {}

  lemma {:induction false} AllTaken(list: seq<Color>, offers: seq<Color>)
    requires forall c :: c in offers ==> HasNear(c, list)
    ensures TakeAll(list, offers) == list
    decreases |offers|
  {
    hide HasNear;
    if offers == [] {
    } else {
      AllTaken(list, offers[1..]);
    }
  }

  lemma NearIsSymmetric(x: Color, y: Color)
    ensures Near(x, y) == Near(y, x)
  {}

  lemma {:induction false} AroundTakenGrowsByOne(list: seq<Color>, offers: seq<Color>, a: Color)
    requires HasNear(a, list) && forall c :: c in offers ==> Near(c, a)
    ensures |TakeAll(list, offers)| <= |list| + 1
    decreases |offers|
  {
    if offers == [] {
    } else if HasNear(offers[0], list) {
      AroundTakenGrowsByOne(list, offers[1..], a);
    } else {
      var x, longer := offers[0], list + [offers[0]];
      var k :| 0 <= k < |list| && Near(a, list[k]);
      NearIsSymmetric(a, list[k]);
      forall c | c in offers[1..] ensures HasNear(c, longer) {
        NoThreeAround(a, x, list[k], c);
        assert longer[k] == list[k] && longer[|list|] == x;
      }
      hide Near;
      AllTaken(longer, offers[1..]);
    }
  }

  /** Offers of one hue never add more than one colour, whatever the list. */
  lemma OneHueGrowsByOne(list: seq<Color>, offers: seq<Color>)
    requires OneHue(offers)
    ensures |TakeAll(list, offers)| <= |list| + 1
  {
    if offers != [] {
      var a, rest := offers[0], offers[1..];
      assert forall c :: c in rest ==> Near(c, a);
      if HasNear(a, list) {
        AroundTakenGrowsByOne(list, rest, a);
      } else {
        var longer := list + [a];
        assert forall c :: c in rest ==> Near(c, longer[|list|]);
        AllTaken(longer, rest);
      }
    }
  }

  // ---------- Room for two more ----------

  function Turned(h: int, d: int): int { if h + d >= 360 then h + d - 360 else h + d }

  /** Multiples of 25 degrees, leaving out the two around d. */
  function Spoke(i: nat, d: int): int {
    25 * (if i + 1 < d / 25 then i + 1 else i + 3)
  }

  /** Nine hues away from a and b and from each other. */
  function NineAway(a: Color, b: Color): (nine: seq<Color>)
    requires a.hue >= 0 && b.hue >= 0
    ensures |nine| == 9 && AllInteresting(nine)
    ensures forall i :: 0 <= i < 9 ==> nine[i].hue == Turned(a.hue, Spoke(i, Turned(b.hue, 360 - a.hue)))
  {
    seq(9, i requires 0 <= i < 9 => AtHue(Turned(a.hue, Spoke(i, Turned(b.hue, 360 - a.hue)))))
  }

  lemma SpokesAreAway(a: Color, b: Color, i: nat)
    requires a.hue >= 0 && b.hue >= 0 && !Near(a, b) && i < 9
    ensures !Near(a, NineAway(a, b)[i]) && !Near(b, NineAway(a, b)[i])
  {}

  lemma SpokesAreSpaced(a: Color, b: Color, i: nat, j: nat)
    requires a.hue >= 0 && b.hue >= 0 && i < j < 9
    ensures !Near(NineAway(a, b)[j], NineAway(a, b)[i])
  {}

  lemma NineAwayWorks(a: Color, b: Color)
    requires a.hue >= 0 && b.hue >= 0 && !Near(a, b)
    ensures var nine := NineAway(a, b); Spaced(nine) && !HasNear(a, nine) && !HasNear(b, nine)
  {
    hide Near, NineAway;
    var nine := NineAway(a, b);
    forall i | 0 <= i < 9 ensures !Near(a, nine[i]) && !Near(b, nine[i]) {
      SpokesAreAway(a, b, i);
    }
    forall i, j | 0 <= i < j < 9 ensures !Near(nine[j], nine[i]) {
      SpokesAreSpaced(a, b, i, j);
    }
  }

  /** Offers close to a listed colour are passed over until one comes that no entry is close to. */
  lemma {:induction false} UnlikeIsTaken(list: seq<Color>, offers: seq<Color>, a: Color, j: nat)
    requires a in list && j < |offers| && !HasNear(offers[j], list)
    requires forall k :: 0 <= k < j ==> Near(offers[k], a)
    ensures |TakeAll(list, offers)| >= |list| + 1
    decreases |offers|
  {
    if j == 0 {
      TakenKeeps(list + [offers[0]], offers[1..]);
    } else {
      var at :| 0 <= at < |list| && list[at] == a;
      assert HasNear(offers[0], list);
      UnlikeIsTaken(list, offers[1..], a, j - 1);
    }
  }

  /** The exact condition: offers keep every spaced list shorter than ten within ten if and only if all of them are
      close to the first. */
  lemma LimitHoldsIffOneHue(offers: seq<Color>)
    requires AllInteresting(offers)
    ensures (forall list :: Spaced(list) && AllInteresting(list) && |list| < 10 ==> |TakeAll(list, offers)| <= 10)
            <==> OneHue(offers)
  {
    hide TakeAll, Spaced, AllInteresting;
    if OneHue(offers) {
      forall list | Spaced(list) && AllInteresting(list) && |list| < 10 ensures |TakeAll(list, offers)| <= 10 {
        OneHueGrowsByOne(list, offers);
      }
    } else {
      var nine := TwoHuesOverflow(offers);
      assert Spaced(nine) && AllInteresting(nine) && |nine| < 10;
    }
  }

  lemma TwoHuesOverflow(offers: seq<Color>) returns (nine: seq<Color>)
    requires AllInteresting(offers) && !OneHue(offers)
    ensures |nine| == 9 && Spaced(nine) && AllInteresting(nine) && |TakeAll(nine, offers)| >= 11
  {
    var j := FirstUnlike(offers, 1);
    var a, b := offers[0], offers[j];
    NearIsSymmetric(a, b);
    assert a in offers && b in offers;
    nine := NineAway(a, b);
    NineAwayWorks(a, b);
    hide NineAway, Near;
    var ten, rest := nine + [a], offers[1..];
    assert rest[j - 1] == b && forall k :: 0 <= k < j - 1 ==> rest[k] == offers[k + 1];
    assert forall k :: 0 <= k < |ten| ==> !Near(b, ten[k]);
    UnlikeIsTaken(ten, rest, a, j - 1);
  }

  lemma {:induction false} FirstUnlike(offers: seq<Color>, n: nat) returns (j: nat)
    requires 1 <= n <= |offers| && (forall k :: 0 <= k < n ==> Near(offers[k], offers[0])) && !OneHue(offers)
    ensures 0 < j < |offers| && !Near(offers[j], offers[0])
    ensures forall k :: 0 <= k < j ==> Near(offers[k], offers[0])
    decreases |offers| - n
  {
    hide Near;
    if n < |offers| && Near(offers[n], offers[0]) {
      j := FirstUnlike(offers, n + 1);
    } else {
      j := n;
    }
  }
}
