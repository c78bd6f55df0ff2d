/**
 The rotate plugin of the image gallery: an unbounded angle and two signs per
 slide, shown as one transform, with the flip axis picked from that transform.
 */
module Rotate {
  import opened Wrappers

  /** The matrix `[[a, c], [b, d]]`, as CSS writes `matrix(a, b, c, d, 0, 0)`. */
  datatype Matrix = Matrix(a: int, b: int, c: int, d: int)

  const IDENTITY := Matrix(1, 0, 0, 1)

  /** `Times(m, n)` does `n` first. */
  function Times(m: Matrix, n: Matrix): Matrix {
    Matrix(m.a * n.a + m.c * n.b, m.b * n.a + m.d * n.b, m.a * n.c + m.c * n.d, m.b * n.c + m.d * n.d)
  }

  datatype Action = RotateRight | RotateLeft | FlipHorizontal | FlipVertical

  /** What a button does to the picture as it is seen. */
  function Effect(x: Action): Matrix {
    match x
    case RotateRight => Matrix(0, 1, -1, 0)
    case RotateLeft => Matrix(0, -1, 1, 0)
    case FlipHorizontal => Matrix(-1, 0, 0, 1)
    case FlipVertical => Matrix(1, 0, 0, -1)
  }

  /** A slide's state: degrees and two signs. */
  datatype Orientation = Orientation(rotate: int, flipHorizontal: int, flipVertical: int)
  {
    predicate Valid() {
      && rotate % 90 == 0
      && (flipHorizontal == 1 || flipHorizontal == -1) && (flipVertical == 1 || flipVertical == -1)
    }
  }

  const UPRIGHT := Orientation(0, 1, 1)

  /** Cosine and sine of multiples of 90 degrees. */
  function Cos(deg: int): int { if deg % 360 == 0 then 1 else if deg % 360 == 180 then -1 else 0 }
  function Sin(deg: int): int { if deg % 360 == 90 then 1 else if deg % 360 == 270 then -1 else 0 }

  /** The transform of an angle with cosine `c` and sine `s`, and signs that are positive or not. */
  function Entries(c: int, s: int, h: bool, v: bool): Matrix {
    Matrix(if h then c else -c, if h then s else -s, if v then -s else s, if v then c else -c)
  }

  /** What `rotate(deg) scale3d(h, v, 1)` shows. */
  function Shown(o: Orientation): Matrix
    requires o.Valid()
  {
    Entries(Cos(o.rotate), Sin(o.rotate), o.flipHorizontal == 1, o.flipVertical == 1)
  }

  /** It is the matrix of the turn times that of the scaling. */
  lemma ShownIsTurnTimesScale(o: Orientation)
    requires o.Valid()
    ensures var c, s := Cos(o.rotate), Sin(o.rotate);
      Shown(o) == Times(Matrix(c, s, -s, c), Matrix(o.flipHorizontal, 0, 0, o.flipVertical))
  {
    var c, s := Cos(o.rotate), Sin(o.rotate);
    Scaled(Matrix(c, s, -s, c), o.flipHorizontal, o.flipVertical);
  }

  lemma Scaled(m: Matrix, h: int, v: int)
    requires (h == 1 || h == -1) && (v == 1 || v == -1)
    ensures Times(m, Matrix(h, 0, 0, v)) ==
      Matrix(if h == 1 then m.a else -m.a, if h == 1 then m.b else -m.b,
             if v == 1 then m.c else -m.c, if v == 1 then m.d else -m.d)
  {
    if h == 1 {
      if v == 1 { assert Times(m, Matrix(1, 0, 0, 1)) == m; } else { assert v == -1; }
    } else {
      assert h == -1;
      if v == 1 {} else { assert v == -1; }
    }
  }

  /** `Math.round(Math.atan2(y, x) * 180 / Math.PI)` of unit vectors along the axes. */
  function Atan2Degrees(y: int, x: int): int {
    if x > 0 then 0 else if y > 0 then 90 else if y < 0 then -90 else 180
  }

  /** The angle read back from an element's transform; 0 without an element or a transform. */
  function CurrentRotation(style: Option<Option<Matrix>>): int {
    if style.None? || style.value.None? then 0
    else
      var angle := Atan2Degrees(style.value.value.b, style.value.value.a);
      if angle < 0 then angle + 360 else angle
  }

  /** A button's effect on the state, given the transform on screen. */
  function Apply(o: Orientation, x: Action, style: Option<Option<Matrix>>): Orientation {
    var turned := CurrentRotation(style) == 90 || CurrentRotation(style) == 270;
    match x
    case RotateRight => o.(rotate := o.rotate + 90)
    case RotateLeft => o.(rotate := o.rotate - 90)
    case FlipHorizontal =>
      if turned then o.(flipVertical := o.flipVertical * -1) else o.(flipHorizontal := o.flipHorizontal * -1)
    case FlipVertical =>
      if turned then o.(flipHorizontal := o.flipHorizontal * -1) else o.(flipVertical := o.flipVertical * -1)
  }

  /** What is seen of an element; one without a transform shows an upright picture. */
  function Seen(style: Option<Matrix>): Matrix {
    if style.None? then IDENTITY else style.value
  }

  /** What is seen of an element is what the state says. */
  predicate Agrees(o: Orientation, style: Option<Matrix>)
    requires o.Valid()
  {
    Seen(style) == Shown(o)
  }

  /** The effects multiply by moving and negating entries. */
  function Moved(x: Action, m: Matrix): Matrix {
    match x
    case RotateRight => Matrix(-m.b, m.a, -m.d, m.c)
    case RotateLeft => Matrix(m.b, -m.a, m.d, -m.c)
    case FlipHorizontal => Matrix(-m.a, m.b, -m.c, m.d)
    case FlipVertical => Matrix(m.a, -m.b, m.c, -m.d)
  }

  lemma EffectIs(x: Action, m: Matrix)
    ensures Times(Effect(x), m) == Moved(x, m)
  {
  }

  /** Read back from the matrix, the picture is turned sideways exactly when the angle is. */
  lemma TurnedIs(o: Orientation)
    requires o.Valid()
    ensures var r := CurrentRotation(Some(Some(Shown(o)))); (r == 90 || r == 270) <==> Sin(o.rotate) != 0
    ensures Sin(o.rotate) == 0 <==> Cos(o.rotate) != 0
  {
    QuarterTurns(o.rotate);
  }

  /** The angle read back is the state's, within a turn, or opposite to it when the first sign is negative. */
  lemma AngleReadBack(o: Orientation)
    requires o.Valid()
    ensures CurrentRotation(Some(Some(Shown(o)))) == (o.rotate + if o.flipHorizontal == 1 then 0 else 180) % 360
  {
    var k := o.rotate / 90;
    var q, m := k / 4, k % 4;
    Remainder(o.rotate, q, 90 * m);
    if m < 2 { Remainder(o.rotate + 180, q, 90 * m + 180); } else { Remainder(o.rotate + 180, q + 1, 90 * m - 180); }
  }

  /** Whatever the angle and the signs, each button does to the seen picture just what it says. */
  lemma ApplyShows(o: Orientation, x: Action, style: Option<Matrix>)
    requires o.Valid() && Agrees(o, style)
    ensures var o' := Apply(o, x, Some(style));
      o'.Valid() && Shown(o') == Times(Effect(x), Seen(style))
  {
    var o' := Apply(o, x, Some(style));
    ApplyValid(o, x, Some(style));
    if style.None? { UprightIsNotTurned(o); } else { TurnedIs(o); }
    QuarterTurns(o.rotate);
    Combine(Cos(o.rotate), Sin(o.rotate), o.flipHorizontal == 1, o.flipVertical == 1, x, Shown(o), Shown(o'));
  }

  /** An element has no transform yet, or the one that was written for its state. */
  predicate Written(o: Orientation, style: Option<Matrix>)
    requires o.Valid()
  {
    style == None || style == Some(Shown(o))
  }

  /** A button does to such an element what it says if and only if the element agreed with its state. */
  lemma ApplyShowsOnlyIf(o: Orientation, x: Action, style: Option<Matrix>)
    requires o.Valid() && Written(o, style)
    ensures var o' := Apply(o, x, Some(style));
      o'.Valid() && (Shown(o') == Times(Effect(x), Seen(style)) <==> Agrees(o, style))
  {
    ApplyValid(o, x, Some(style));
    if Agrees(o, style) {
      ApplyShows(o, x, style);
    } else {
      OffUpright(o, x, Apply(o, x, Some(style)));
      EffectOnUpright(x, IDENTITY);
    }
  }

  /**
   A slide whose element has not loaded reads as not turned: a flip then turns the state about the axis
   that the button names if and only if the state is not sideways; the turns always do what they say.
   */
  lemma ApplyUnloaded(o: Orientation, x: Action)
    requires o.Valid()
    ensures var o' := Apply(o, x, None);
      && o'.Valid()
      && (Shown(o') == Times(Effect(x), Shown(o)) <==> x == RotateRight || x == RotateLeft || o.rotate % 180 == 0)
  {
    ApplyValid(o, x, None);
    EffectIs(x, Shown(o));
    UnloadedShows(o, x, Apply(o, x, None));
  }

  lemma UnloadedShows(o: Orientation, x: Action, o': Orientation)
    requires o.Valid() && o' == Apply(o, x, None) && o'.Valid()
    ensures Shown(o') == Moved(x, Shown(o)) <==> x == RotateRight || x == RotateLeft || o.rotate % 180 == 0
  {
    QuarterTurns(o.rotate);
    HalfTurns(o.rotate);
    Unturned(Cos(o.rotate), Sin(o.rotate), o.flipHorizontal == 1, o.flipVertical == 1, x, Shown(o'));
  }

  lemma HalfTurns(deg: int)
    requires deg % 90 == 0
    ensures deg % 180 == 0 <==> Sin(deg) == 0
    ensures Sin(deg) == 0 <==> Cos(deg) != 0
  {
    var k := deg / 90;
    Remainder(deg, k / 4, 90 * (k % 4));
  }

  lemma Unturned(c: int, s: int, h: bool, v: bool, x: Action, m: Matrix)
    requires s == 0 <==> c != 0
    requires m ==
      match x
      case RotateRight => Entries(-s, c, h, v)
      case RotateLeft => Entries(s, -c, h, v)
      case FlipHorizontal => Entries(c, s, !h, v)
      case FlipVertical => Entries(c, s, h, !v)
    ensures m == Moved(x, Entries(c, s, h, v)) <==> x == RotateRight || x == RotateLeft || s == 0
  {
  }

  lemma EffectOnUpright(x: Action, m: Matrix)
    requires m == IDENTITY
    ensures Times(Effect(x), m) == Effect(x)
  {
    EffectIs(x, m);
  }

  lemma OffUpright(o: Orientation, x: Action, o': Orientation)
    requires o.Valid() && Shown(o) != IDENTITY && o' == Apply(o, x, Some(None)) && o'.Valid()
    ensures Shown(o') != Effect(x)
  {
    QuarterTurns(o.rotate);
    NotUpright(Cos(o.rotate), Sin(o.rotate), o.flipHorizontal == 1, o.flipVertical == 1, x, Shown(o), Shown(o'));
  }

  /** A button taken for an upright picture, on entries that are not upright, leaves other entries than its effect. */
  lemma NotUpright(c: int, s: int, h: bool, v: bool, x: Action, m: Matrix, m': Matrix)
    requires m == Entries(c, s, h, v) && m != IDENTITY
    requires m' ==
      match x
      case RotateRight => Entries(-s, c, h, v)
      case RotateLeft => Entries(s, -c, h, v)
      case FlipHorizontal => Entries(c, s, !h, v)
      case FlipVertical => Entries(c, s, h, !v)
    ensures m' != Effect(x)
  {
  }

  /** An element without a transform reads as not turned, and a state that agrees with it is not. */
  lemma UprightIsNotTurned(o: Orientation)
    requires o.Valid() && Shown(o) == IDENTITY
    ensures Sin(o.rotate) == 0 && Cos(o.rotate) != 0 && CurrentRotation(Some(None)) == 0
  {
  }

  /** The entries before and after a button, as signs and exchanges. */
  lemma Combine(c: int, s: int, h: bool, v: bool, x: Action, m: Matrix, m': Matrix)
    requires c == 0 || s == 0
    requires m == Entries(c, s, h, v)
    requires m' ==
      match x
      case RotateRight => Entries(-s, c, h, v)
      case RotateLeft => Entries(s, -c, h, v)
      case FlipHorizontal => if s != 0 then Entries(c, s, h, !v) else Entries(c, s, !h, v)
      case FlipVertical => if s != 0 then Entries(c, s, !h, v) else Entries(c, s, h, !v)
    ensures m' == Times(Effect(x), m)
  {
    EffectIs(x, m);
  }

  lemma ApplyValid(o: Orientation, x: Action, style: Option<Option<Matrix>>)
    requires o.Valid()
    ensures Apply(o, x, style).Valid()
  {
  }

  lemma QuarterTurns(deg: int)
    requires deg % 90 == 0
    ensures Cos(deg + 90) == -Sin(deg) && Sin(deg + 90) == Cos(deg)
    ensures Cos(deg - 90) == Sin(deg) && Sin(deg - 90) == -Cos(deg)
  {
    var k := deg / 90;
    var q, m := k / 4, k % 4;
    Remainder(deg, q, 90 * m);
    if m == 0 {
      Remainder(deg + 90, q, 90);
      Remainder(deg - 90, q - 1, 270);
    } else if m == 3 {
      Remainder(deg + 90, q + 1, 0);
      Remainder(deg - 90, q, 180);
    } else {
      Remainder(deg + 90, q, 90 * m + 90);
      Remainder(deg - 90, q, 90 * m - 90);
    }
  }

  lemma Remainder(x: int, q: int, r: nat)
    requires x == 360 * q + r && r < 360
    ensures x % 360 == r
  {
  }

  /** The state after some buttons, the transform being written after each. */
  function Run(o: Orientation, xs: seq<Action>): (r: Orientation)
    requires o.Valid()
    ensures r.Valid()
  {
    if xs == [] then o
    else
      var before := Run(o, xs[..|xs| - 1]);
      ApplyValid(before, xs[|xs| - 1], Some(Some(Shown(before))));
      Apply(before, xs[|xs| - 1], Some(Some(Shown(before))))
  }

  /** The buttons' effects multiplied, the last one outermost. */
  function Product(xs: seq<Action>): Matrix {
    if xs == [] then IDENTITY else Times(Effect(xs[|xs| - 1]), Product(xs[..|xs| - 1]))
  }

  /** After any sequence of buttons the transform on screen is the plain product of what they say. */
  lemma {:induction false} RunIsProduct(xs: seq<Action>)
    ensures Shown(Run(UPRIGHT, xs)) == Product(xs)
  {
    if xs != [] {
      var n := |xs| - 1;
      RunIsProduct(xs[..n]);
      var before := Run(UPRIGHT, xs[..n]);
      ApplyShows(before, xs[n], Some(Shown(before)));
    }
  }

  function Abs(x: int): nat { if x < 0 then -x else x }

  function Changed(o: Orientation): bool {
    Abs(o.rotate) % 360 != 0 || o.flipHorizontal < 0 || o.flipVertical < 0
  }

  predicate HalfTurnFlipped(o: Orientation) {
    o.rotate % 360 == 180 && o.flipHorizontal < 0 && o.flipVertical < 0
  }

  /** Half a turn with both flips is the one way to be upright and still count as changed. */
  lemma UprightUnlessChanged(o: Orientation)
    requires o.Valid()
    ensures Changed(o) <==> Shown(o) != IDENTITY || HalfTurnFlipped(o)
    ensures HalfTurnFlipped(o) ==> Shown(o) == IDENTITY
  {
    AbsTurn(o.rotate);
  }

  lemma AbsTurn(deg: int)
    requires deg % 90 == 0
    ensures Abs(deg) % 360 == 0 <==> deg % 360 == 0
    ensures Abs(deg) % 360 == 180 <==> deg % 360 == 180
  {
  }

  /** Four buttons that bring the picture back upright and leave it counted as changed. */
  lemma ChangedThoughUpright() returns (xs: seq<Action>)
    ensures xs == [RotateRight, RotateRight, FlipHorizontal, FlipVertical]
    ensures Changed(Run(UPRIGHT, xs)) && Shown(Run(UPRIGHT, xs)) == IDENTITY
  {
    xs := [];
    var o := UPRIGHT;
    assert Run(UPRIGHT, xs) == o;
    RunOne(xs, RotateRight);
    xs, o := xs + [RotateRight], Orientation(90, 1, 1);
    assert Run(UPRIGHT, xs) == o;
    RunOne(xs, RotateRight);
    xs, o := xs + [RotateRight], Orientation(180, 1, 1);
    assert Run(UPRIGHT, xs) == o;
    RunOne(xs, FlipHorizontal);
    xs, o := xs + [FlipHorizontal], Orientation(180, -1, 1);
    assert Run(UPRIGHT, xs) == o;
    RunOne(xs, FlipVertical);
    xs, o := xs + [FlipVertical], Orientation(180, -1, -1);
    UprightUnlessChanged(o);
  }

  /** A slide turned before its element loads shows an upright picture over a turned state; turned back, they agree. */
  lemma TurnedBeforeLoad()
    ensures !Agrees(Run(UPRIGHT, [RotateRight]), None) && Agrees(Run(UPRIGHT, [RotateRight, RotateLeft]), None)
  {
    var xs := [RotateRight];
    assert Run(UPRIGHT, []) == UPRIGHT && [] + xs == xs && xs + [RotateLeft] == [RotateRight, RotateLeft];
    RunOne([], RotateRight);
    assert Run(UPRIGHT, xs) == Orientation(90, 1, 1);
    RunOne(xs, RotateLeft);
    assert Run(UPRIGHT, xs + [RotateLeft]) == UPRIGHT;
  }

  lemma RunOne(xs: seq<Action>, x: Action)
    ensures Run(UPRIGHT, xs + [x]) == Apply(Run(UPRIGHT, xs), x, Some(Some(Shown(Run(UPRIGHT, xs)))))
  {
    assert (xs + [x])[..|xs|] == xs;
  }

  /** The plugin: the state of each slide seen so far, and the transform of each slide's element. */
  class Plugin {
    var index: nat
    var rotateValuesList: map<nat, Orientation>
    var styles: map<nat, Option<Matrix>>

    /** Each transform on screen is the one written for its slide's state, if any was written. */
    ghost predicate Sound()
      reads this
    {
      && (forall i :: i in rotateValuesList ==>
            rotateValuesList[i].Valid() && (i in styles ==> Written(rotateValuesList[i], styles[i])))
      && forall i :: i in styles && i !in rotateValuesList ==> styles[i] == None
    }

    /** Every picture is seen as its slide's state says. */
    ghost predicate Valid()
      reads this
    {
      Sound() && forall i :: i in rotateValuesList && i in styles ==> Agrees(rotateValuesList[i], styles[i])
    }

    constructor ()
      ensures Valid() && rotateValuesList == map[] && styles == map[]
    {
      index, rotateValuesList, styles := 0, map[], map[];
    }

    function StyleOf(i: nat): Option<Option<Matrix>>
      reads this
    {
      if i in styles then Some(styles[i]) else None
    }

    /** Going to a slide gives it an upright state, unless it has a state already. */
    method BeforeSlide(i: nat)
      requires Sound()
      modifies this
      ensures Sound() && (Valid() <==> old(Valid())) && index == old(index) && styles == old(styles)
      ensures rotateValuesList ==
        if i in old(rotateValuesList) then old(rotateValuesList) else old(rotateValuesList)[i := UPRIGHT]
    {
      if i !in rotateValuesList {
        rotateValuesList := rotateValuesList[i := UPRIGHT];
      }
    }

    /** A slide's content has loaded: it gets an element, without a transform, unless it has one. */
    method SlideItemLoad(i: nat)
      requires Sound()
      modifies `styles
      ensures styles == if i in old(styles) then old(styles) else old(styles)[i := None]
      ensures Sound() && (i in rotateValuesList ==> rotateValuesList[i].Valid())
      ensures Valid() <==>
        old(Valid()) && (i in old(styles) || i !in rotateValuesList || Shown(rotateValuesList[i]) == IDENTITY)
    {
      if i !in styles {
        styles := styles[i := None];
        assert i in rotateValuesList && Shown(rotateValuesList[i]) != IDENTITY ==>
            !Agrees(rotateValuesList[i], styles[i]);
        assert forall j :: j in old(styles) ==> styles[j] == old(styles)[j];
      }
    }

    /** Closing forgets every slide's state; the gallery drops the slides' elements. */
    method CloseGallery() returns (hidden: bool)
      requires Sound() && index in rotateValuesList
      modifies this
      ensures Valid() && rotateValuesList == map[] && styles == map[]
      ensures hidden == Changed(old(rotateValuesList)[old(index)])
    {
      hidden := IsImageOrientationChanged();
      rotateValuesList := map[];
      styles := map[];
    }

    method ApplyStyles()
      requires index in rotateValuesList && rotateValuesList[index].Valid()
      modifies `styles
      ensures styles ==
        if index in old(styles) then old(styles)[index := Some(Shown(rotateValuesList[index]))] else old(styles)
    {
      if index in styles {
        styles := styles[index := Some(Shown(rotateValuesList[index]))];
      }
    }

    /**
     A button pressed on the current slide: its picture turns as the button says if and only if it was
     seen as its state says, which it is afterwards in any case; every other slide stays.
     */
    method Press(x: Action)
      requires Sound() && index in rotateValuesList
      modifies `rotateValuesList, `styles
      ensures Sound() && (old(Valid()) ==> Valid())
      ensures rotateValuesList
        == old(rotateValuesList)[index := Apply(old(rotateValuesList[index]), x, old(StyleOf(index)))]
      ensures rotateValuesList[index].Valid() && old(rotateValuesList[index].Valid())
      ensures index !in old(styles) ==>
        && styles == old(styles)
        && (Shown(rotateValuesList[index]) == Times(Effect(x), old(Shown(rotateValuesList[index])))
            <==> x == RotateRight || x == RotateLeft || old(rotateValuesList[index].rotate) % 180 == 0)
      ensures index in old(styles) ==>
        && styles.Keys == old(styles).Keys
        && Agrees(rotateValuesList[index], styles[index])
        && (Seen(styles[index]) == Times(Effect(x), old(Seen(styles[index])))
            <==> old(Agrees(rotateValuesList[index], styles[index])))
        && forall i :: i in old(styles) && i != index ==> styles[i] == old(styles)[i]
    {
      var o := rotateValuesList[index];
      ApplyValid(o, x, StyleOf(index));
      if index in styles { ApplyShowsOnlyIf(o, x, styles[index]); } else { ApplyUnloaded(o, x); }
      var turned := Turn(o, x);
      rotateValuesList := rotateValuesList[index := turned];
      ApplyStyles();
    }

    /** What the four buttons' own functions do to the state of the current slide. */
    method Turn(given: Orientation, x: Action) returns (o: Orientation)
      ensures o == Apply(given, x, StyleOf(index))
    {
      o := given;
      match x {
        case RotateLeft => o := o.(rotate := o.rotate - 90);
        case RotateRight => o := o.(rotate := o.rotate + 90);
        case FlipHorizontal =>
          var currentRotation := CurrentRotation(StyleOf(index));
          if currentRotation == 90 || currentRotation == 270 {
            o := o.(flipVertical := o.flipVertical * -1);
          } else {
            o := o.(flipHorizontal := o.flipHorizontal * -1);
          }
        case FlipVertical =>
          var currentRotation := CurrentRotation(StyleOf(index));
          if currentRotation == 90 || currentRotation == 270 {
            o := o.(flipHorizontal := o.flipHorizontal * -1);
          } else {
            o := o.(flipVertical := o.flipVertical * -1);
          }
      }
    }

    /** False only for an upright picture, and true for every other one and for half a turn with both flips. */
    method IsImageOrientationChanged() returns (r: bool)
      requires Sound() && index in rotateValuesList
      ensures rotateValuesList[index].Valid()
      ensures r <==> Shown(rotateValuesList[index]) != IDENTITY || HalfTurnFlipped(rotateValuesList[index])
      ensures r == Changed(rotateValuesList[index])
    {
      var o := rotateValuesList[index];
      UprightUnlessChanged(o);
      var isRotated := Abs(o.rotate) % 360 != 0;
      var isFlippedHor := o.flipHorizontal < 0;
      var isFlippedVer := o.flipVertical < 0;
      return isRotated || isFlippedHor || isFlippedVer;
    }
  }
}
