/**
 * The zone table of annotate_video.py: styles, zones, the normalisation that
 * `ZoneConfig.load` applies once the configuration has been parsed, and the
 * layout solver `set_content_size`, which turns declared margin sizes into
 * pixel rectangles around the original frame (the "content" zone).
 *
 * Python floats are modelled as exact reals: binary-float rounding of the
 * fractional sizes is not captured.
 */
module Zones {
  import opened Common

  /** An RGB triple, as `ImageColor.getrgb` returns it. */
  datatype Rgb = Rgb(r: int, g: int, b: int)

  /** A font: a file name until the layout solver loads it at a pixel size. */
  datatype Font = FontFile(file: string) | Loaded(file: string, px: int)

  /**
   * A zone or style reference as a zone or an annotation holds it: absent (None),
   * a name still to be looked up, or bound to the object stored under `key` in the
   * ZoneConfig's tables. The key stands for object identity: every holder of
   * `Bound(k)` sees the one Style object stored under `k`, including the changes
   * `load` and `set_content_size` make to it.
   */
  datatype Ref = Unset | Named(name: string) | Bound(key: string)

  datatype Style = Style(foreground: Rgb, background: Option<Rgb>, border: int, font: Font, fontsize: real)

  /** `Style()`: white foreground, no background yet, border 2, Liberation Sans Bold at 2% of the content height. */
  const DEFAULT_STYLE := Style(Rgb(255, 255, 255), None, 2, FontFile("LiberationSans-Bold.ttf"), 0.02)

  /** A zone; `name` is its key in the zone dictionary, whose insertion order the zone sequence keeps. */
  datatype Zone = Zone(
    name: string, title: Option<string>, location: string, size: real, style: Ref,
    x: int, y: int, w: int, h: int)

  const CONTENT := "content"
  const DEFAULT := "default"
  /** The location codes `load` accepts: north, south, east, west and centre. */
  predicate IsLocationCode(c: char) {
    c == 'n' || c == 's' || c == 'e' || c == 'w' || c == 'c'
  }

  /** `Zone(location='c', size=1)`: the zone `load` adds for the original frame. */
  const CONTENT_ZONE := Zone(CONTENT, None, "c", 1.0, Unset, 0, 0, 0, 0)

  /** `get_xy`: a zone-relative point in canvas coordinates. */
  function GetXY(z: Zone, dx: int, dy: int): (int, int)
  {
    (z.x + dx, z.y + dy)
  }

  /** `if pheight % 2: pheight += 1` */
  function RoundUpEven(h: int): (r: int)
    ensures r % 2 == 0 && h <= r <= h + 1
  {
    if h % 2 == 1 then h + 1 else h
  }

  function Complement(c: Rgb): (r: Rgb)
    ensures Rgb(255 - r.r, 255 - r.g, 255 - r.b) == c
  {
    Rgb(255 - c.r, 255 - c.g, 255 - c.b)
  }


  // ---------------------------------------------------------------------------
  // Normalisation after parsing (ZoneConfig.load)
  // ---------------------------------------------------------------------------

  /** The errors `load` raises while normalising zones. */
  const EMPTY_LOCATION := "IndexError: empty zone location"
  const BAD_LOCATION := "ValidationError: zone location must be one of n, s, e, w"
  const UNKNOWN_STYLE := "ValidationError: zone refers to a non-existing style"
  const CONTENT_DECLARED := "ValidationError: the content zone cannot be declared"

  /** `location.strip().lower()[0]`, or the IndexError that an all-blank location raises. */
  function NormalLocation(loc: string): (r: Result<char>)
  {
    match FirstNonSpace(loc)
    case None => Err(EMPTY_LOCATION)
    case Some(c) => Ok(LowerChar(c))
  }

  /** The location fails only when it is blank, and is otherwise the lower-cased first non-blank character. */
  lemma NormalLocationSpec(loc: string)
    ensures NormalLocation(loc).Ok? <==> exists i :: 0 <= i < |loc| && !IsSpace(loc[i])
    ensures NormalLocation(loc).Ok? ==> NormalLocation(loc).value == LowerChar(loc[LeadingSpaces(loc)])
  {
    FirstNonSpaceIsStripHead(loc);
    StripSlice(loc);
  }

  lemma LowerNotSpace(c: char)
    requires !IsSpace(c)
    ensures !IsSpace(LowerChar(c)) && LowerChar(LowerChar(c)) == LowerChar(c)
  {
  }

  /** A normalised location: one of the five one-letter codes. */
  predicate Normal(location: string) {
    |location| == 1 && IsLocationCode(location[0])
  }

  /** The style table `load` works with: the declared styles, plus `default` when it is missing. */
  function WithDefault(styles: map<string, Style>): (r: map<string, Style>)
    ensures DEFAULT in r && r.Keys == styles.Keys + {DEFAULT}
    ensures forall k :: k in styles ==> r[k] == styles[k]
  {
    if DEFAULT in styles then styles else styles[DEFAULT := DEFAULT_STYLE]
  }

  /**
   * One iteration of the zone loop of `load`: normalise the location, check it,
   * default a missing style to `default` and bind the style name to the table entry.
   */
  function NormalizeZone(z: Zone, styles: map<string, Style>): (r: Result<Zone>)
  {
    match NormalLocation(z.location)
    case Err(e) => Err(e)
    case Ok(c) =>
      if !IsLocationCode(c) then Err(BAD_LOCATION)
      else
        var z1 := z.(location := [c]);
        match z.style
        case Bound(_) => Ok(z1)
        case Unset =>
          if DEFAULT in styles then Ok(z1.(style := Bound(DEFAULT)))
          else Err(UNKNOWN_STYLE)
        case Named(n) =>
          if n in styles then Ok(z1.(style := Bound(n)))
          else Err(UNKNOWN_STYLE)
  }

  /**
   * A zone is accepted exactly when its location is not blank, starts with one of n/s/e/w/c
   * (in either case) and its style, if named, is in the table (`default` if unnamed); the
   * accepted zone differs from the declared one only in its location and its style binding.
   */
  lemma NormalizeZoneSpec(z: Zone, styles: map<string, Style>)
    ensures NormalizeZone(z, styles).Ok? <==>
      && (exists i :: 0 <= i < |z.location| && !IsSpace(z.location[i]))
      && IsLocationCode(LowerChar(z.location[LeadingSpaces(z.location)]))
      && (z.style.Unset? ==> DEFAULT in styles)
      && (z.style.Named? ==> z.style.name in styles)
    ensures NormalizeZone(z, styles).Ok? ==>
      && Normal(NormalizeZone(z, styles).value.location)
      && (!z.style.Bound? ==> NormalizeZone(z, styles).value.style.key in styles)
      && NormalizeZone(z, styles).value.location == [LowerChar(z.location[LeadingSpaces(z.location)])]
      && NormalizeZone(z, styles).value.style == Bind(z.style)
      && NormalizeZone(z, styles).value.(location := z.location, style := z.style) == z
  {
    NormalLocationSpec(z.location);
  }

  /** The binding `load` gives a zone's style reference: `default` when absent, the table entry of the name otherwise. */
  function Bind(style: Ref): Ref {
    match style
    case Unset => Bound(DEFAULT)
    case Named(n) => Bound(n)
    case Bound(_) => style
  }

  /** Normalising an accepted zone again changes nothing: the loop of `load` is idempotent per zone. */
  lemma NormalizeIdempotent(z: Zone, styles: map<string, Style>)
    requires NormalizeZone(z, styles).Ok?
    ensures NormalizeZone(NormalizeZone(z, styles).value, styles) == NormalizeZone(z, styles)
  {
    var r := NormalizeZone(z, styles).value;
    var c := LowerChar(FirstNonSpace(z.location).value);
    assert r == z.(location := [c], style := Bind(z.style));
    LowerNotSpace(FirstNonSpace(z.location).value);
    assert FirstNonSpace([c]) == Some(c);
    assert NormalLocation(r.location) == Ok(c);
  }

  /** The background fix-up of `load`: a missing background becomes the complement of the foreground. */
  function WithBackground(s: Style): (r: Style)
    ensures r.background.Some?
    ensures s.background.Some? ==> r == s
    ensures s.background.None? ==> r == s.(background := Some(Complement(s.foreground)))
  {
    if s.background.None? then s.(background := Some(Complement(s.foreground))) else s
  }

  /** The zone loop of `load` as a function: the normalised zones in order, or the first failure. */
  function NormalizeList(zones: seq<Zone>, styles: map<string, Style>): (r: Result<seq<Zone>>)
    ensures r.Ok? ==> |r.value| == |zones|
  {
    if zones == [] then Ok([])
    else
      match NormalizeList(zones[..|zones| - 1], styles)
      case Err(e) => Err(e)
      case Ok(init) =>
        match NormalizeZone(zones[|zones| - 1], styles)
        case Err(e) => Err(e)
        case Ok(z) => Ok(init + [z])
  }

  /** The loop succeeds exactly when every zone is accepted, and then holds each zone's normal form at its index. */
  lemma NormalizeListSpec(zones: seq<Zone>, styles: map<string, Style>)
    ensures NormalizeList(zones, styles).Ok? <==> forall i :: 0 <= i < |zones| ==> NormalizeZone(zones[i], styles).Ok?
    ensures NormalizeList(zones, styles).Ok? ==>
      forall i :: 0 <= i < |zones| ==> NormalizeList(zones, styles).value[i] == NormalizeZone(zones[i], styles).value
  {
    if NormalizeList(zones, styles).Ok? {
      forall i | 0 <= i < |zones|
        ensures NormalizeZone(zones[i], styles) == Ok(NormalizeList(zones, styles).value[i])
      {
        NormalizeListAt(zones, styles, i);
      }
    } else if forall i :: 0 <= i < |zones| ==> NormalizeZone(zones[i], styles).Ok? {
      NormalizeListAccepts(zones, styles);
    }
  }

  lemma {:induction false} NormalizeListAt(zones: seq<Zone>, styles: map<string, Style>, i: nat)
    requires i < |zones| && NormalizeList(zones, styles).Ok?
    ensures NormalizeZone(zones[i], styles) == Ok(NormalizeList(zones, styles).value[i])
  {
    var n := |zones| - 1;
    var init := zones[..n];
    NormalizeListLast(zones, styles);
    var whole, front := NormalizeList(zones, styles).value, NormalizeList(init, styles).value;
    if i < n {
      calc {
        NormalizeZone(zones[i], styles);
        { assert init[i] == zones[i]; }
        NormalizeZone(init[i], styles);
        { NormalizeListAt(init, styles, i); }
        Ok(front[i]);
        { assert whole[i] == front[i]; }
        Ok(whole[i]);
      }
    } else {
      assert whole[i] == NormalizeZone(zones[n], styles).value;
    }
  }

  /** A successful list ends with the last zone's normal form after the rest's normal forms. */
  lemma NormalizeListLast(zones: seq<Zone>, styles: map<string, Style>)
    requires zones != [] && NormalizeList(zones, styles).Ok?
    ensures NormalizeList(zones[..|zones| - 1], styles).Ok?
    ensures NormalizeZone(zones[|zones| - 1], styles).Ok?
    ensures NormalizeList(zones, styles).value ==
      NormalizeList(zones[..|zones| - 1], styles).value + [NormalizeZone(zones[|zones| - 1], styles).value]
  {
  }

  lemma {:induction false} NormalizeListAccepts(zones: seq<Zone>, styles: map<string, Style>)
    requires forall i :: 0 <= i < |zones| ==> NormalizeZone(zones[i], styles).Ok?
    ensures NormalizeList(zones, styles).Ok?
  {
    if zones != [] {
      var init := zones[..|zones| - 1];
      assert forall i :: 0 <= i < |init| ==> init[i] == zones[i];
      NormalizeListAccepts(init, styles);
    }
  }

  /** Once a prefix fails, the whole list fails with the same error. */
  lemma {:induction false} NormalizeListFailure(zones: seq<Zone>, styles: map<string, Style>, i: nat)
    requires i <= |zones| && NormalizeList(zones[..i], styles).Err?
    ensures NormalizeList(zones, styles) == NormalizeList(zones[..i], styles)
  {
    if i < |zones| {
      var init := zones[..|zones| - 1];
      assert init[..i] == zones[..i];
      NormalizeListFailure(init, styles, i);
    } else {
      assert zones[..i] == zones;
    }
  }

  /** The first `i` zones normalise to `out`. */
  ghost predicate Normalized(zones: seq<Zone>, styles: map<string, Style>, i: nat, out: seq<Zone>)
  {
    i <= |zones| && NormalizeList(zones[..i], styles) == Ok(out)
  }

  /** One more zone: normalised and appended, or its error is the error of the whole list. */
  lemma NormalizeListNext(zones: seq<Zone>, styles: map<string, Style>, i: nat, out: seq<Zone>, n: Result<Zone>)
    requires i < |zones| && Normalized(zones, styles, i, out) && n == NormalizeZone(zones[i], styles)
    ensures n.Ok? ==> Normalized(zones, styles, i + 1, out + [n.value])
    ensures n.Err? ==> NormalizeList(zones, styles) == Err(n.reason)
  {
    assert zones[..i + 1][..i] == zones[..i];
    if NormalizeZone(zones[i], styles).Err? {
      NormalizeListFailure(zones, styles, i + 1);
    }
  }

  /** The zone loop of `load`: normalise every zone in order; the first failure is raised. */
  method NormalizeAll(zones: seq<Zone>, styles: map<string, Style>) returns (r: Result<seq<Zone>>)
    ensures r == NormalizeList(zones, styles)
  {
    var out: seq<Zone> := [];
    var i := 0;
    while i < |zones|
      invariant Normalized(zones, styles, i, out)
    {
      var n := NormalizeZone(zones[i], styles);
      NormalizeListNext(zones, styles, i, out, n);
      if n.Err? {
        return Err(n.reason);
      }
      out := out + [n.value];
      i := i + 1;
    }
    assert zones[..i] == zones;
    r := Ok(out);
  }

  /** The style loop of `load`: every style in the table gets its background filled in. */
  method FillBackgrounds(styles: map<string, Style>) returns (out: map<string, Style>)
    ensures out == map k | k in styles :: WithBackground(styles[k])
  {
    out := styles;
    var todo := styles.Keys;
    while todo != {}
      invariant todo <= styles.Keys && out.Keys == styles.Keys
      invariant forall k :: k in styles ==> out[k] == if k in todo then styles[k] else WithBackground(styles[k])
      decreases |todo|
    {
      var k :| k in todo;
      out := out[k := WithBackground(out[k])];
      todo := todo - {k};
    }
    assert out == map k | k in styles :: WithBackground(styles[k]);
  }

  predicate DistinctNames(zones: seq<Zone>) {
    forall i, j :: 0 <= i < j < |zones| ==> zones[i].name != zones[j].name
  }

  /** `name in zones`: some zone is stored under `name`. */
  predicate HasZone(zones: seq<Zone>, name: string) {
    exists i :: 0 <= i < |zones| && zones[i].name == name
  }

  /** Zones as the configuration file declares them: their styles are names or absent, never yet bound. */
  predicate Declared(zones: seq<Zone>) {
    forall i :: 0 <= i < |zones| ==> !zones[i].style.Bound?
  }

  /**
   * What `load` guarantees of the zone table it returns: `content` is the last zone and
   * located at the centre, names are unique, every location is one of n/s/e/w/c, every
   * zone's style is bound to a table entry, `default` exists and every background is set.
   */
  ghost predicate WellFormed(zones: seq<Zone>, styles: map<string, Style>) {
    && |zones| >= 1
    && zones[|zones| - 1].name == CONTENT
    && zones[|zones| - 1].location == "c"
    && DistinctNames(zones)
    && (forall i :: 0 <= i < |zones| ==> Normal(zones[i].location))
    && (forall i :: 0 <= i < |zones| ==> zones[i].style.Bound? && zones[i].style.key in styles)
    && DEFAULT in styles
    && (forall k :: k in styles ==> styles[k].background.Some?)
  }

  /** What the normalisation guarantees of one accepted zone. */
  lemma NormalizedZone(z: Zone, styles: map<string, Style>)
    requires NormalizeZone(z, styles).Ok?
    ensures var r := NormalizeZone(z, styles).value;
      && Normal(r.location) && r.name == z.name && r.style.Bound?
      && (!z.style.Bound? ==> r.style.key in styles)
  {
  }

  /** What the loops of `load` produce is a well-formed table. */
  lemma LoadedWellFormed(declared: seq<Zone>, styles: map<string, Style>, zs: seq<Zone>, filled: map<string, Style>)
    requires DistinctNames(declared) && Declared(declared) && !HasZone(declared, CONTENT) && DEFAULT in styles
    requires NormalizeList(declared + [CONTENT_ZONE], styles) == Ok(zs)
    requires filled == map k | k in styles :: WithBackground(styles[k])
    ensures WellFormed(zs, filled)
  {
    var all := declared + [CONTENT_ZONE];
    var n := |declared|;
    NormalizeListAt(all, styles, n);
    assert all[n] == CONTENT_ZONE;
    assert FirstNonSpace("c") == Some('c');
    assert zs[n] == CONTENT_ZONE.(style := Bound(DEFAULT));
    forall i | 0 <= i < n
      ensures Normal(zs[i].location) && zs[i].name == declared[i].name
      ensures zs[i].style.Bound? && zs[i].style.key in styles
    {
      NormalizeListAt(all, styles, i);
      assert all[i] == declared[i];
      NormalizedZone(declared[i], styles);
    }
    forall i, j | 0 <= i < j < |zs|
      ensures zs[i].name != zs[j].name
    {
      if j < n {
        assert zs[i].name == declared[i].name && zs[j].name == declared[j].name;
      } else {
        assert zs[i].name == declared[i].name;
      }
    }
  }

  /** The first index of the zone stored under `name`: the dictionary lookup `zones[name]`. */
  function FindZone(zones: seq<Zone>, name: string): (r: Option<nat>)
    ensures r.Some? ==> r.value < |zones| && zones[r.value].name == name
    ensures r.Some? ==> forall j :: 0 <= j < r.value ==> zones[j].name != name
    ensures r.None? <==> !HasZone(zones, name)
  {
    if zones == [] then None
    else if zones[0].name == name then Some(0)
    else
      match FindZone(zones[1..], name)
      case None => assert forall j :: 1 <= j < |zones| ==> zones[j] == zones[1..][j - 1]; None
      case Some(j) => Some(j + 1)
  }

  lemma FindZoneUnique(zones: seq<Zone>, i: nat)
    requires DistinctNames(zones) && i < |zones|
    ensures FindZone(zones, zones[i].name) == Some(i)
  {
  }

  // ---------------------------------------------------------------------------
  // Layout solver (set_content_size)
  // ---------------------------------------------------------------------------

  /** The `match z.location` of the solver: the one-letter code, or '?' for a string that matches no case. */
  function Side(location: string): char {
    if |location| == 1 then location[0] else '?'
  }

  predicate IsVertical(location: string) {
    Side(location) == 'n' || Side(location) == 's'
  }

  /** The content dimension a fractional size refers to: the height for north and south zones, the width otherwise. */
  function Dimension(location: string, width: nat, height: nat): nat {
    if IsVertical(location) then height else width
  }

  /**
   * `f * n`, written as repeated addition so that the layout arithmetic stays linear;
   * `ScaleIsProduct` shows it is the product.
   */
  function Scale(f: real, n: nat): real {
    if n == 0 then 0.0 else Scale(f, n - 1) + f
  }

  lemma {:induction false} ScaleIsProduct(f: real, n: nat)
    ensures Scale(f, n) == f * n as real
  {
    if n > 0 {
      ScaleIsProduct(f, n - 1);
    }
  }

  /** Lines 112-117: a size below 1 is a fraction of the content height (n/s) or width (others). */
  function ResolveSize(z: Zone, width: nat, height: nat): int
  {
    if z.size < 1.0 then Trunc(Scale(z.size, Dimension(z.location, width, height)))
    else Trunc(z.size)
  }

  lemma MulBelow(a: real, d: real)
    requires 0.0 <= a <= 1.0 && d >= 0.0
    ensures 0.0 <= a * d <= d
  {
    assert (1.0 - a) * d >= 0.0;
  }

  /** A fractional size resolves to the floor of that fraction of the content dimension. */
  lemma FractionalSize(z: Zone, width: nat, height: nat)
    requires 0.0 <= z.size < 1.0
    ensures var dim := Dimension(z.location, width, height);
      && ResolveSize(z, width, height) == (z.size * dim as real).Floor
      && 0 <= ResolveSize(z, width, height) <= dim
  {
    var dim := Dimension(z.location, width, height);
    ScaleIsProduct(z.size, dim);
    MulBelow(z.size, dim as real);
  }

  /** An absolute size is truncated to whole pixels. */
  lemma AbsoluteSize(z: Zone, width: nat, height: nat)
    requires z.size >= 1.0
    ensures ResolveSize(z, width, height) == z.size.Floor >= 1
  {
  }

  /** How many times `k` occurs in `placed`. */
  function Count(placed: seq<nat>, k: nat): nat
  {
    if placed == [] then 0
    else Count(placed[..|placed| - 1], k) + (if placed[|placed| - 1] == k then 1 else 0)
  }

  predicate Indexes(placed: seq<nat>, n: nat) {
    forall j :: 0 <= j < |placed| ==> placed[j] < n
  }

  /** The shift loop `for ez in curzones: ez.x += dx; ez.y += dy`, one entry at a time. */
  function Shift(zones: seq<Zone>, placed: seq<nat>, dx: int, dy: int): (r: seq<Zone>)
    requires Indexes(placed, |zones|)
    ensures |r| == |zones|
  {
    if placed == [] then zones
    else
      var zs := Shift(zones, placed[..|placed| - 1], dx, dy);
      var k := placed[|placed| - 1];
      zs[k := zs[k].(x := zs[k].x + dx, y := zs[k].y + dy)]
  }

  /** A shifted zone moves once per occurrence in `curzones`; nothing else about it changes. */
  lemma {:induction false} ShiftAt(zones: seq<Zone>, placed: seq<nat>, dx: int, dy: int, k: nat)
    requires Indexes(placed, |zones|) && k < |zones|
    ensures Shift(zones, placed, dx, dy)[k]
         == zones[k].(x := zones[k].x + Count(placed, k) * dx, y := zones[k].y + Count(placed, k) * dy)
  {
    if placed != [] {
      var init := placed[..|placed| - 1];
      ShiftAt(zones, init, dx, dy, k);
      var c := Count(init, k);
      assert (c + 1) * dx == c * dx + dx && (c + 1) * dy == c * dy + dy;
    }
  }

  /** The running state of the solver: the zones, `curzones` (as indexes), `pwidth` and `pheight`. */
  datatype Placement = Placement(zones: seq<Zone>, placed: seq<nat>, pwidth: int, pheight: int)

  /** The rectangle the solver gives a zone of resolved size `s` (lines 118-137), before any later shift. */
  function Positioned(z: Zone, s: int, pw: int, ph: int): Zone {
    var z1 := z.(size := s as real);
    match Side(z.location)
    case 'n' => z1.(x := 0, y := 0, w := pw, h := s)
    case 's' => z1.(x := 0, y := ph, w := pw, h := s)
    case 'e' => z1.(x := pw, y := 0, h := s, w := ph) // as written: h takes the size, w the running height
    case 'w' => z1.(x := 0, y := 0, h := s, w := ph)
    case _ => z1
  }

  /** One iteration of the zone loop of `set_content_size` (lines 110-141), for the zone at index `i`. */
  function Place(p: Placement, i: nat, width: nat, height: nat): (q: Placement)
    requires i < |p.zones| && Indexes(p.placed, |p.zones|)
    ensures |q.zones| == |p.zones| && q.placed == p.placed + [i] && Indexes(q.placed, |q.zones|)
  {
    var z := p.zones[i];
    var s := ResolveSize(z, width, height);
    var side := Side(z.location);
    var zs := p.zones[i := Positioned(z, s, p.pwidth, p.pheight)];
    Placement(
      if side == 'n' then Shift(zs, p.placed, 0, s) else if side == 'w' then Shift(zs, p.placed, s, 0) else zs,
      p.placed + [i],
      if side == 'e' || side == 'w' then p.pwidth + s else p.pwidth,
      if side == 'n' || side == 's' then p.pheight + s else p.pheight)
  }

  /** The solver's state before the loop: the content zone at (0, 0, width, height), and `curzones = [czone]`. */
  function Start(zones: seq<Zone>, c: nat, width: nat, height: nat): (p: Placement)
    requires c < |zones|
    ensures |p.zones| == |zones| && Indexes(p.placed, |p.zones|)
  {
    Placement(zones[c := zones[c].(x := 0, y := 0, w := width, h := height)], [c], width, height)
  }

  /** The solver's state after the first `i` zones of the dictionary have been visited. */
  function LayoutUpTo(zones: seq<Zone>, c: nat, width: nat, height: nat, i: nat): (p: Placement)
    requires c < |zones| && i <= |zones|
    ensures |p.zones| == |zones| && Indexes(p.placed, |p.zones|)
  {
    if i == 0 then Start(zones, c, width, height)
    else Place(LayoutUpTo(zones, c, width, height, i - 1), i - 1, width, height)
  }

  /** The state at the end of the zone loop, the content zone found by name. */
  function Layout(zones: seq<Zone>, width: nat, height: nat): (p: Placement)
    requires HasZone(zones, CONTENT)
    ensures |p.zones| == |zones|
  {
    LayoutUpTo(zones, FindZone(zones, CONTENT).value, width, height, |zones|)
  }

  /** Lines 144-148: a fractional font size becomes that share of the content height; the font is loaded at the floor of the size. */
  function ResolveFont(s: Style, height: nat): (r: Style)
    ensures r.font == Loaded(s.font.file, r.fontsize.Floor)
    ensures r.(font := s.font, fontsize := s.fontsize) == s
    ensures s.fontsize >= 1.0 ==> r.fontsize == s.fontsize
  {
    var fs := if s.fontsize < 1.0 then Trunc(Scale(s.fontsize, height)) as real else s.fontsize;
    s.(fontsize := fs, font := Loaded(s.font.file, fs.Floor))
  }

  /** A fractional font size becomes a whole number of pixels between 0 and the content height. */
  lemma FractionalFont(s: Style, height: nat)
    requires 0.0 <= s.fontsize < 1.0
    ensures ResolveFont(s, height).fontsize == (s.fontsize * height as real).Floor as real
    ensures 0.0 <= ResolveFont(s, height).fontsize <= height as real
    ensures ResolveFont(s, height).font.px == ResolveFont(s, height).fontsize.Floor
  {
    ScaleIsProduct(s.fontsize, height);
    assert 0.0 <= s.fontsize * height as real <= height as real by {
      MulBelow(s.fontsize, height as real);
    }
  }

  // ---------------------------------------------------------------------------
  // Properties of the layout
  // ---------------------------------------------------------------------------

  /** What a zone keeps through the layout: everything but its size and geometry. */
  predicate SameIdentity(a: Zone, b: Zone) {
    a.name == b.name && a.title == b.title && a.location == b.location && a.style == b.style
  }

  /** The resolved size depends only on the declared size and the location. */
  lemma ResolveSizeOf(a: Zone, b: Zone, width: nat, height: nat)
    requires a.size == b.size && a.location == b.location
    ensures ResolveSize(a, width, height) == ResolveSize(b, width, height)
  {
  }

  /** One step of the solver keeps every zone's identity and sets the size of the visited zone only. */
  lemma PlaceKeeps(p: Placement, i: nat, width: nat, height: nat, k: nat)
    requires i < |p.zones| && Indexes(p.placed, |p.zones|) && k < |p.zones|
    ensures SameIdentity(Place(p, i, width, height).zones[k], p.zones[k])
    ensures Place(p, i, width, height).zones[k].size == if k == i then ResolveSize(p.zones[i], width, height) as real else p.zones[k].size
  {
    var z := p.zones[i];
    var s := ResolveSize(z, width, height);
    var zs := p.zones[i := Positioned(z, s, p.pwidth, p.pheight)];
    if Side(z.location) == 'n' {
      ShiftAt(zs, p.placed, 0, s, k);
    } else if Side(z.location) == 'w' {
      ShiftAt(zs, p.placed, s, 0, k);
    }
  }

  /** One step of the solver moves every other zone right (west) or down (north) by the new size, once per occurrence in `curzones`. */
  lemma PlaceMoves(p: Placement, i: nat, width: nat, height: nat, k: nat)
    requires i < |p.zones| && Indexes(p.placed, |p.zones|) && k < |p.zones| && k != i
    ensures var s := ResolveSize(p.zones[i], width, height); var side := Side(p.zones[i].location);
      Place(p, i, width, height).zones[k] == p.zones[k].(
        x := p.zones[k].x + (if side == 'w' then Count(p.placed, k) * s else 0),
        y := p.zones[k].y + (if side == 'n' then Count(p.placed, k) * s else 0))
  {
    var z := p.zones[i];
    var s := ResolveSize(z, width, height);
    var zs := p.zones[i := Positioned(z, s, p.pwidth, p.pheight)];
    if Side(z.location) == 'n' {
      ShiftAt(zs, p.placed, 0, s, k);
    } else if Side(z.location) == 'w' {
      ShiftAt(zs, p.placed, s, 0, k);
    }
  }

  /** The total resolved size of the zones among `zones` whose side is in `sides`. */
  function SideTotal(zones: seq<Zone>, sides: set<char>, width: nat, height: nat): int
  {
    if zones == [] then 0
    else
      var z := zones[|zones| - 1];
      SideTotal(zones[..|zones| - 1], sides, width, height) + (if Side(z.location) in sides then ResolveSize(z, width, height) else 0)
  }

  lemma SideTotalNext(zones: seq<Zone>, sides: set<char>, width: nat, height: nat, i: nat)
    requires i < |zones|
    ensures SideTotal(zones[..i + 1], sides, width, height)
         == SideTotal(zones[..i], sides, width, height) + (if Side(zones[i].location) in sides then ResolveSize(zones[i], width, height) else 0)
  {
    assert zones[..i + 1][..i] == zones[..i];
  }

  /** `[0, 1, ..., n - 1]` */
  function Upto(n: nat): (r: seq<nat>)
    ensures |r| == n && forall j :: 0 <= j < n ==> r[j] == j
  {
    if n == 0 then [] else Upto(n - 1) + [n - 1]
  }

  /** Until the loop reaches it, the content zone is in `curzones` exactly once. */
  lemma {:induction false} CountOnce(c: nat, i: nat)
    requires i <= c
    ensures Count([c] + Upto(i), c) == 1
  {
    if i > 0 {
      CountOnce(c, i - 1);
      assert ([c] + Upto(i))[..i] == [c] + Upto(i - 1);
    } else {
      assert [c][..0] == [];
    }
  }

  /**
   * What holds of the solver's state after the first `i` zones have been visited:
   * `curzones` is the content zone followed by those `i` zones; every zone keeps its
   * identity; exactly the visited zones have their size resolved; the running width and
   * height have grown by the resolved east/west and north/south sizes; and, until the
   * content zone itself is visited, it sits at (west total, north total) with the frame's size.
   */
  ghost predicate Visited(zones0: seq<Zone>, c: nat, width: nat, height: nat, i: nat, p: Placement)
    requires c < |zones0| && i <= |zones0|
  {
    && |p.zones| == |zones0|
    && Indexes(p.placed, |zones0|)
    && p.placed == [c] + Upto(i)
    && (forall k :: 0 <= k < |zones0| ==> SameIdentity(p.zones[k], zones0[k]))
    && (forall k :: 0 <= k < |zones0| ==>
          p.zones[k].size == if k < i then ResolveSize(zones0[k], width, height) as real else zones0[k].size)
    && p.pwidth == width + SideTotal(zones0[..i], {'e', 'w'}, width, height)
    && p.pheight == height + SideTotal(zones0[..i], {'n', 's'}, width, height)
    && (zones0[c].location == "c" && i <= c + 1 ==>
          && p.zones[c].x == SideTotal(zones0[..i], {'w'}, width, height)
          && p.zones[c].y == SideTotal(zones0[..i], {'n'}, width, height)
          && p.zones[c].w == width && p.zones[c].h == height)
  }

  lemma VisitedStart(zones0: seq<Zone>, c: nat, width: nat, height: nat)
    requires c < |zones0|
    ensures Visited(zones0, c, width, height, 0, Start(zones0, c, width, height))
  {
    assert zones0[..0] == [];
  }

  /** Visiting one more zone keeps `Visited`. */
  lemma VisitedStep(zones0: seq<Zone>, c: nat, width: nat, height: nat, i: nat, p: Placement)
    requires c < |zones0| && i < |zones0| && Visited(zones0, c, width, height, i, p)
    ensures Visited(zones0, c, width, height, i + 1, Place(p, i, width, height))
  {
    var q := Place(p, i, width, height);
    ResolveSizeOf(p.zones[i], zones0[i], width, height);
    var s := ResolveSize(zones0[i], width, height);
    var side := Side(zones0[i].location);
    assert [c] + Upto(i + 1) == ([c] + Upto(i)) + [i];
    forall k | 0 <= k < |zones0|
      ensures SameIdentity(q.zones[k], zones0[k])
      ensures q.zones[k].size == if k < i + 1 then ResolveSize(zones0[k], width, height) as real else zones0[k].size
    {
      PlaceKeeps(p, i, width, height, k);
    }
    SideTotalNext(zones0, {'e', 'w'}, width, height, i);
    SideTotalNext(zones0, {'n', 's'}, width, height, i);
    if zones0[c].location == "c" && i + 1 <= c + 1 {
      SideTotalNext(zones0, {'w'}, width, height, i);
      SideTotalNext(zones0, {'n'}, width, height, i);
      if i == c {
        assert side == 'c';
        PlaceKeeps(p, i, width, height, c);
      } else {
        CountOnce(c, i);
        PlaceMoves(p, i, width, height, c);
      }
    }
  }

  lemma {:induction false} LayoutVisited(zones0: seq<Zone>, c: nat, width: nat, height: nat, i: nat)
    requires c < |zones0| && i <= |zones0|
    ensures Visited(zones0, c, width, height, i, LayoutUpTo(zones0, c, width, height, i))
  {
    if i == 0 {
      VisitedStart(zones0, c, width, height);
    } else {
      LayoutVisited(zones0, c, width, height, i - 1);
      VisitedStep(zones0, c, width, height, i - 1, LayoutUpTo(zones0, c, width, height, i - 1));
    }
  }

  /**
   * The layout changes only sizes and geometry; a zone's size is resolved exactly when
   * the loop visits it, and the zones not yet visited keep their declared size.
   */
  lemma LayoutKeepsIdentity(zones: seq<Zone>, c: nat, width: nat, height: nat, i: nat, k: nat)
    requires c < |zones| && i <= |zones| && k < |zones|
    ensures SameIdentity(LayoutUpTo(zones, c, width, height, i).zones[k], zones[k])
    ensures k >= i ==> LayoutUpTo(zones, c, width, height, i).zones[k].size == zones[k].size
    ensures k < i ==> LayoutUpTo(zones, c, width, height, i).zones[k].size == ResolveSize(zones[k], width, height) as real
  {
    LayoutVisited(zones, c, width, height, i);
  }

  /**
   * The running canvas width is the content width plus the resolved sizes of the east and
   * west zones visited so far; the running height is the content height plus those of the
   * north and south zones. Centre zones add nothing.
   */
  lemma CanvasExtent(zones: seq<Zone>, c: nat, width: nat, height: nat, i: nat)
    requires c < |zones| && i <= |zones|
    ensures LayoutUpTo(zones, c, width, height, i).pwidth == width + SideTotal(zones[..i], {'e', 'w'}, width, height)
    ensures LayoutUpTo(zones, c, width, height, i).pheight == height + SideTotal(zones[..i], {'n', 's'}, width, height)
  {
    LayoutVisited(zones, c, width, height, i);
  }

  /** `curzones` holds the content zone first, then every zone visited so far, in order. */
  lemma PlacedOrder(zones: seq<Zone>, c: nat, width: nat, height: nat, i: nat)
    requires c < |zones| && i <= |zones|
    ensures LayoutUpTo(zones, c, width, height, i).placed == [c] + Upto(i)
  {
    LayoutVisited(zones, c, width, height, i);
  }

  /**
   * Up to and including its own visit, the content zone sits at x = total size of the west
   * zones visited so far and y = total size of the north zones: each north or west zone
   * pushes it away from the origin by exactly its size.
   */
  lemma ContentOriginUpTo(zones: seq<Zone>, c: nat, width: nat, height: nat, i: nat)
    requires c < |zones| && i <= c + 1 && zones[c].location == "c"
    ensures LayoutUpTo(zones, c, width, height, i).zones[c].x == SideTotal(zones[..i], {'w'}, width, height)
    ensures LayoutUpTo(zones, c, width, height, i).zones[c].y == SideTotal(zones[..i], {'n'}, width, height)
    ensures LayoutUpTo(zones, c, width, height, i).zones[c].w == width
    ensures LayoutUpTo(zones, c, width, height, i).zones[c].h == height
  {
    LayoutVisited(zones, c, width, height, i);
  }

  /**
   * In a loaded table (content last), the solved content origin is (total west size, total
   * north size), and the content keeps the frame's width and height.
   */
  lemma ContentOrigin(zones: seq<Zone>, width: nat, height: nat)
    requires |zones| >= 1 && zones[|zones| - 1].name == CONTENT && zones[|zones| - 1].location == "c"
    requires DistinctNames(zones)
    ensures HasZone(zones, CONTENT)
    ensures var cz := Layout(zones, width, height).zones[|zones| - 1];
      && cz.x == SideTotal(zones, {'w'}, width, height)
      && cz.y == SideTotal(zones, {'n'}, width, height)
      && cz.w == width && cz.h == height
  {
    var c := |zones| - 1;
    FindZoneUnique(zones, c);
    ContentOriginUpTo(zones, c, width, height, |zones|);
    assert zones[..|zones|] == zones;
  }

  lemma {:induction false} NoSideNoTotal(zones: seq<Zone>, sides: set<char>, width: nat, height: nat)
    requires forall i :: 0 <= i < |zones| ==> Side(zones[i].location) !in sides
    ensures SideTotal(zones, sides, width, height) == 0
  {
    if zones != [] {
      NoSideNoTotal(zones[..|zones| - 1], sides, width, height);
    }
  }

  /** With no north or west zone the content stays at the canvas origin. */
  lemma ContentAtOriginWithoutNorthOrWest(zones: seq<Zone>, width: nat, height: nat)
    requires |zones| >= 1 && zones[|zones| - 1].name == CONTENT && zones[|zones| - 1].location == "c"
    requires DistinctNames(zones)
    requires forall i :: 0 <= i < |zones| ==> zones[i].location != "n" && zones[i].location != "w"
    ensures HasZone(zones, CONTENT)
    ensures Layout(zones, width, height).zones[|zones| - 1].x == 0
    ensures Layout(zones, width, height).zones[|zones| - 1].y == 0
  {
    ContentOrigin(zones, width, height);
    forall i | 0 <= i < |zones|
      ensures Side(zones[i].location) != 'n' && Side(zones[i].location) != 'w'
    {
      if |zones[i].location| == 1 {
        assert zones[i].location == [zones[i].location[0]];
      }
    }
    NoSideNoTotal(zones, {'w'}, width, height);
    NoSideNoTotal(zones, {'n'}, width, height);
  }

  lemma {:induction false} SideTotalNonNegative(zones: seq<Zone>, sides: set<char>, width: nat, height: nat)
    requires forall i :: 0 <= i < |zones| ==> zones[i].size >= 0.0
    ensures SideTotal(zones, sides, width, height) >= 0
  {
    if zones != [] {
      SideTotalNonNegative(zones[..|zones| - 1], sides, width, height);
      var z := zones[|zones| - 1];
      if z.size < 1.0 {
        FractionalSize(z, width, height);
      }
    }
  }

  lemma {:induction false} SplitTotal(zones: seq<Zone>, a: char, b: char, width: nat, height: nat)
    requires a != b
    ensures SideTotal(zones, {a, b}, width, height) == SideTotal(zones, {a}, width, height) + SideTotal(zones, {b}, width, height)
  {
    if zones != [] {
      SplitTotal(zones[..|zones| - 1], a, b, width, height);
    }
  }

  /** With non-negative declared sizes, the whole content frame lies inside the canvas. */
  lemma ContentInsideCanvas(zones: seq<Zone>, width: nat, height: nat)
    requires |zones| >= 1 && zones[|zones| - 1].name == CONTENT && zones[|zones| - 1].location == "c"
    requires DistinctNames(zones)
    requires forall i :: 0 <= i < |zones| ==> zones[i].size >= 0.0
    ensures HasZone(zones, CONTENT)
    ensures var p := Layout(zones, width, height); var cz := p.zones[|zones| - 1];
      && 0 <= cz.x && cz.x + width <= p.pwidth
      && 0 <= cz.y && cz.y + height <= RoundUpEven(p.pheight)
  {
    var c := |zones| - 1;
    ContentOrigin(zones, width, height);
    FindZoneUnique(zones, c);
    CanvasExtent(zones, c, width, height, |zones|);
    assert zones[..|zones|] == zones;
    SplitTotal(zones, 'e', 'w', width, height);
    SplitTotal(zones, 'n', 's', width, height);
    SideTotalNonNegative(zones, {'w'}, width, height);
    SideTotalNonNegative(zones, {'e'}, width, height);
    SideTotalNonNegative(zones, {'n'}, width, height);
    SideTotalNonNegative(zones, {'s'}, width, height);
  }

  /** A north zone of size s spans the running width at the top, and every placed zone moves down by s. */
  lemma NorthStep(p: Placement, i: nat, width: nat, height: nat)
    requires i < |p.zones| && Indexes(p.placed, |p.zones|) && p.zones[i].location == "n"
    ensures var s := ResolveSize(p.zones[i], width, height); var q := Place(p, i, width, height);
      && q.pheight == p.pheight + s && q.pwidth == p.pwidth
      && (q.zones[i].x, q.zones[i].w, q.zones[i].h) == (0, p.pwidth, s)
      && q.zones[i].y == Count(p.placed, i) * s
      && forall k :: 0 <= k < |p.zones| && k != i ==>
           q.zones[k] == p.zones[k].(y := p.zones[k].y + Count(p.placed, k) * s)
  {
    var s := ResolveSize(p.zones[i], width, height);
    var zs := p.zones[i := Positioned(p.zones[i], s, p.pwidth, p.pheight)];
    ShiftAt(zs, p.placed, 0, s, i);
    forall k | 0 <= k < |p.zones| && k != i
      ensures Place(p, i, width, height).zones[k] == p.zones[k].(y := p.zones[k].y + Count(p.placed, k) * s)
    {
      ShiftAt(zs, p.placed, 0, s, k);
    }
  }

  /** A west zone of size s sits at the left edge (w takes the running height, as written), and every placed zone moves right by s. */
  lemma WestStep(p: Placement, i: nat, width: nat, height: nat)
    requires i < |p.zones| && Indexes(p.placed, |p.zones|) && p.zones[i].location == "w"
    ensures var s := ResolveSize(p.zones[i], width, height); var q := Place(p, i, width, height);
      && q.pwidth == p.pwidth + s && q.pheight == p.pheight
      && (q.zones[i].y, q.zones[i].h, q.zones[i].w) == (0, s, p.pheight)
      && q.zones[i].x == Count(p.placed, i) * s
      && forall k :: 0 <= k < |p.zones| && k != i ==>
           q.zones[k] == p.zones[k].(x := p.zones[k].x + Count(p.placed, k) * s)
  {
    var s := ResolveSize(p.zones[i], width, height);
    var zs := p.zones[i := Positioned(p.zones[i], s, p.pwidth, p.pheight)];
    ShiftAt(zs, p.placed, s, 0, i);
    forall k | 0 <= k < |p.zones| && k != i
      ensures Place(p, i, width, height).zones[k] == p.zones[k].(x := p.zones[k].x + Count(p.placed, k) * s)
    {
      ShiftAt(zs, p.placed, s, 0, k);
    }
  }

  /** South and east zones extend the trailing edge and move nothing that was placed before. */
  lemma TrailingStep(p: Placement, i: nat, width: nat, height: nat)
    requires i < |p.zones| && Indexes(p.placed, |p.zones|)
    requires p.zones[i].location == "s" || p.zones[i].location == "e"
    ensures var s := ResolveSize(p.zones[i], width, height); var q := Place(p, i, width, height);
      && (forall k :: 0 <= k < |p.zones| && k != i ==> q.zones[k] == p.zones[k])
      && (p.zones[i].location == "s" ==>
            (q.zones[i].x, q.zones[i].y, q.zones[i].w, q.zones[i].h) == (0, p.pheight, p.pwidth, s)
            && q.pheight == p.pheight + s && q.pwidth == p.pwidth)
      && (p.zones[i].location == "e" ==>
            (q.zones[i].x, q.zones[i].y, q.zones[i].w, q.zones[i].h) == (p.pwidth, 0, p.pheight, s)
            && q.pwidth == p.pwidth + s && q.pheight == p.pheight)
  {
  }

  /**
   * On a well-formed table the solved layout puts the content zone (the last one) past
   * the west zones and below the north zones, and grows the canvas by every east/west
   * zone across and every north/south zone down.
   */
  lemma LayoutSummary(zones: seq<Zone>, styles: map<string, Style>, width: nat, height: nat)
    requires WellFormed(zones, styles)
    ensures HasZone(zones, CONTENT)
    ensures var p := Layout(zones, width, height);
      && p.zones[|zones| - 1].x == SideTotal(zones, {'w'}, width, height)
      && p.zones[|zones| - 1].y == SideTotal(zones, {'n'}, width, height)
      && p.pwidth == width + SideTotal(zones, {'e', 'w'}, width, height)
      && p.pheight == height + SideTotal(zones, {'n', 's'}, width, height)
  {
    var c := |zones| - 1;
    ContentOrigin(zones, width, height);
    FindZoneUnique(zones, c);
    CanvasExtent(zones, c, width, height, |zones|);
    assert zones[..|zones|] == zones;
  }

  /** A 1920x1080 content frame with a 10% north zone and a 60-pixel south zone. */
  lemma NorthSouthScenario(north: Zone, south: Zone)
    requires north.name == "top" && north.location == "n" && north.size == 0.1
    requires south.name == "bottom" && south.location == "s" && south.size == 60.0
    ensures var zones := [north, south, CONTENT_ZONE.(style := Bound(DEFAULT))];
      && HasZone(zones, CONTENT)
      && Layout(zones, 1920, 1080).zones[2].x == 0
      && Layout(zones, 1920, 1080).zones[2].y == 108
      && Layout(zones, 1920, 1080).pwidth == 1920
      && RoundUpEven(Layout(zones, 1920, 1080).pheight) == 1248
  {
    var zones := [north, south, CONTENT_ZONE.(style := Bound(DEFAULT))];
    ScaleIsProduct(0.1, 1080);
    assert ResolveSize(north, 1920, 1080) == 108;
    assert ResolveSize(south, 1920, 1080) == 60;
    assert ResolveSize(zones[2], 1920, 1080) == 1;
    ScenarioTotals(zones, {'w'}, 0, 0, 0);
    ScenarioTotals(zones, {'n'}, 108, 0, 0);
    ScenarioTotals(zones, {'e', 'w'}, 0, 0, 0);
    ScenarioTotals(zones, {'n', 's'}, 108, 60, 0);
    ContentOrigin(zones, 1920, 1080);
    FindZoneUnique(zones, 2);
    CanvasExtent(zones, 2, 1920, 1080, 3);
  }

  /** The side totals of a three-zone table, zone by zone. */
  lemma ScenarioTotals(zones: seq<Zone>, sides: set<char>, a: int, b: int, c: int)
    requires |zones| == 3
    requires a == (if Side(zones[0].location) in sides then ResolveSize(zones[0], 1920, 1080) else 0)
    requires b == (if Side(zones[1].location) in sides then ResolveSize(zones[1], 1920, 1080) else 0)
    requires c == (if Side(zones[2].location) in sides then ResolveSize(zones[2], 1920, 1080) else 0)
    ensures SideTotal(zones, sides, 1920, 1080) == a + b + c
    ensures SideTotal(zones[..3], sides, 1920, 1080) == a + b + c
  {
    SideTotalNext(zones, sides, 1920, 1080, 0);
    SideTotalNext(zones, sides, 1920, 1080, 1);
    SideTotalNext(zones, sides, 1920, 1080, 2);
    assert zones[..0] == [];
    assert zones[..3] == zones;
  }

  // ---------------------------------------------------------------------------
  // The zone configuration object
  // ---------------------------------------------------------------------------

  /** `ZoneConfig`: the zone dictionary (in insertion order) and the style dictionary. */
  class ZoneConfig {
    var zones: seq<Zone>
    var styles: map<string, Style>

    ghost predicate Valid()
      reads this
    {
      WellFormed(zones, styles)
    }

    /** `ZoneConfig(**zdata)`: the parsed, not yet normalised, tables. */
    constructor (zones: seq<Zone>, styles: map<string, Style>)
      ensures this.zones == zones && this.styles == styles
    {
      this.zones := zones;
      this.styles := styles;
    }

    /**
     * `ZoneConfig.load` after parsing: refuse a user zone named `content`, add the
     * content zone at the end, add `default`, normalise and bind every zone, then fill
     * in every missing background.
     */
    static method Load(declared: seq<Zone>, declaredStyles: map<string, Style>) returns (r: Result<ZoneConfig>)
      requires DistinctNames(declared) && Declared(declared)
      ensures r.Ok? <==>
        !HasZone(declared, CONTENT) && NormalizeList(declared + [CONTENT_ZONE], WithDefault(declaredStyles)).Ok?
      ensures r.Ok? ==> fresh(r.value) && r.value.Valid()
      ensures r.Ok? ==> r.value.zones == NormalizeList(declared + [CONTENT_ZONE], WithDefault(declaredStyles)).value
      ensures r.Ok? ==> r.value.styles == map k | k in WithDefault(declaredStyles) :: WithBackground(WithDefault(declaredStyles)[k])
    {
      if exists i :: 0 <= i < |declared| && declared[i].name == CONTENT {
        return Err(CONTENT_DECLARED);
      }
      var all := declared + [CONTENT_ZONE];
      var styles := WithDefault(declaredStyles);
      var normalized := NormalizeAll(all, styles);
      if normalized.Err? {
        return Err(normalized.reason);
      }
      var filled := FillBackgrounds(styles);
      var zc := new ZoneConfig(normalized.value, filled);
      LoadedWellFormed(declared, styles, normalized.value, filled);
      r := Ok(zc);
    }

    /** `get_zone`: the zone stored under `name`, if any (a KeyError otherwise). */
    function GetZone(name: string): (r: Option<Zone>)
      reads this
      ensures r.Some? <==> HasZone(zones, name)
      ensures r.Some? ==> r.value.name == name && r.value in zones
    {
      match FindZone(zones, name)
      case Some(i) => Some(zones[i])
      case None => None
    }

    /** `get_style`: the style stored under `name`, or `default` when no name is given (a KeyError if missing). */
    function GetStyle(name: Option<string>): (r: Option<Style>)
      reads this
      ensures var key := if name.None? then DEFAULT else name.value;
        && (r.Some? <==> key in styles)
        && (r.Some? ==> r.value == styles[key])
    {
      var key := if name.None? then DEFAULT else name.value;
      if key in styles then Some(styles[key]) else None
    }

    /** `set_content_size`: solve the layout, resolve the font sizes and return the even-height canvas size. */
    method SetContentSize(width: nat, height: nat) returns (pwidth: int, pheight: int)
      requires Valid()
      modifies this
      ensures Valid()
      ensures HasZone(old(zones), CONTENT)
      ensures zones == Layout(old(zones), width, height).zones
      ensures pwidth == Layout(old(zones), width, height).pwidth
      ensures pheight == RoundUpEven(Layout(old(zones), width, height).pheight)
      ensures styles == map k | k in old(styles) :: ResolveFont(old(styles)[k], height)
    {
      assert HasZone(zones, CONTENT) by {
        assert zones[|zones| - 1].name == CONTENT;
      }
      var c := FindZone(zones, CONTENT).value;
      var zs := zones[c := zones[c].(x := 0, y := 0, w := width, h := height)];
      var pw, ph := width, height;
      var curzones: seq<nat> := [c];
      var i := 0;
      while i < |zs|
        invariant zones == old(zones) && styles == old(styles)
        invariant |zs| == |zones| && 0 <= i <= |zs|
        invariant Placement(zs, curzones, pw, ph) == LayoutUpTo(zones, c, width, height, i)
      {
        zs, pw, ph := PlaceZone(zs, curzones, pw, ph, i, width, height);
        curzones := curzones + [i];
        i := i + 1;
      }
      ghost var layout := Layout(zones, width, height);
      assert layout == Placement(zs, curzones, pw, ph);
      ghost var resolved := map k | k in styles :: ResolveFont(styles[k], height);
      LayoutPreservesWellFormed(zones, styles, c, width, height);
      assert WellFormed(zs, resolved);
      zones := zs;
      ResolveFonts(height);
      assert styles == resolved;
      pwidth, pheight := pw, RoundUpEven(ph);
    }

    /** One iteration of the zone loop (lines 110-141): size the zone at `i`, place it, and shift what was placed before. */
    static method PlaceZone(zs: seq<Zone>, curzones: seq<nat>, pw: int, ph: int, i: nat, width: nat, height: nat)
      returns (zs': seq<Zone>, pw': int, ph': int)
      requires i < |zs| && Indexes(curzones, |zs|)
      ensures Placement(zs', curzones + [i], pw', ph') == Place(Placement(zs, curzones, pw, ph), i, width, height)
    {
      var z := zs[i];
      var size := ResolveSize(z, width, height);
      var side := Side(z.location);
      z := z.(size := size as real);
      zs', pw', ph' := zs, pw, ph;
      if side == 'n' {
        zs' := zs'[i := z.(x := 0, y := 0, w := pw, h := size)];
        ph' := ph + size;
        zs' := ShiftPlaced(zs', curzones, 0, size);
      } else if side == 's' {
        zs' := zs'[i := z.(x := 0, y := ph, w := pw, h := size)];
        ph' := ph + size;
      } else if side == 'e' {
        zs' := zs'[i := z.(x := pw, y := 0, h := size, w := ph)];
        pw' := pw + size;
      } else if side == 'w' {
        zs' := zs'[i := z.(x := 0, y := 0, h := size, w := ph)];
        pw' := pw + size;
        zs' := ShiftPlaced(zs', curzones, size, 0);
      } else {
        zs' := zs'[i := z];
      }
    }

    /** The shift loop over `curzones` (lines 124-125 and 139-140): each listed zone moves by (dx, dy). */
    static method ShiftPlaced(zs: seq<Zone>, placed: seq<nat>, dx: int, dy: int) returns (r: seq<Zone>)
      requires Indexes(placed, |zs|)
      ensures r == Shift(zs, placed, dx, dy)
    {
      r := zs;
      var j := 0;
      while j < |placed|
        invariant 0 <= j <= |placed|
        invariant r == Shift(zs, placed[..j], dx, dy)
      {
        assert placed[..j + 1][..j] == placed[..j];
        var k := placed[j];
        r := r[k := r[k].(x := r[k].x + dx, y := r[k].y + dy)];
        j := j + 1;
      }
      assert placed[..j] == placed;
    }

    /** The font loop of `set_content_size` (lines 144-148), over the style table. */
    method ResolveFonts(height: nat)
      modifies this
      ensures zones == old(zones)
      ensures styles == map k | k in old(styles) :: ResolveFont(old(styles)[k], height)
    {
      var todo := styles.Keys;
      ghost var styles0 := styles;
      while todo != {}
        invariant todo <= styles0.Keys && styles.Keys == styles0.Keys && zones == old(zones)
        invariant forall k :: k in styles0 ==> styles[k] == if k in todo then styles0[k] else ResolveFont(styles0[k], height)
        decreases |todo|
      {
        var k :| k in todo;
        styles := styles[k := ResolveFont(styles[k], height)];
        todo := todo - {k};
      }
    }
  }

  /** Solving the layout and resolving fonts keeps what `load` established. */
  lemma LayoutPreservesWellFormed(zones: seq<Zone>, styles: map<string, Style>, c: nat, width: nat, height: nat)
    requires WellFormed(zones, styles) && c < |zones|
    ensures WellFormed(LayoutUpTo(zones, c, width, height, |zones|).zones, map k | k in styles :: ResolveFont(styles[k], height))
  {
    LayoutVisited(zones, c, width, height, |zones|);
  }
}
