/**
 * The annotation engine of annotate_video.py: annotations bound to zones and
 * styles (`Annotate.add_annotations`), and the per-frame compositor
 * (`annotate_frame`, `drawtext`, `drawborder`, `TextAnnotation.annotate`,
 * `BoxAnnotation.annotate`) modelled as the display list of drawing commands it
 * issues on the PIL canvas. Pixels are not modelled.
 */
module Annotations {
  import opened Common
  import opened Zones

  /** The error of a drawing command that raises outside every `try`. */
  const DRAW_FAILED := "drawing failed"

  // ---------------------------------------------------------------------------
  // Annotations and their binding (add_annotations)
  // ---------------------------------------------------------------------------

  /**
   * The zone of an annotation: a zone name from the annotation file, or (once bound)
   * the zone object itself, stood for by its key in the zone dictionary.
   */
  datatype ZoneRef = ZoneNamed(key: string) | ZoneBound(key: string)

  /** `TextAnnotation` (with its `fill` flag) or `BoxAnnotation` (with its `size`). */
  datatype Kind = TextKind(fill: bool) | BoxKind(w: int, h: int)

  /** `BaseAnnotation`: the zone, the zone-relative position, the style (absent, a name or bound) and the text. */
  datatype Annotation = Annotation(zone: ZoneRef, position: (int, int), style: Ref, text: string, kind: Kind)

  /**
   * The body of the inner loop of `add_annotations` for one annotation: a zone name is
   * looked up (a KeyError when missing), a style name is looked up (a KeyError when
   * missing), an absent style becomes the zone's own style, and references that are
   * already objects are kept. A bound zone key always names a zone of the table (the
   * zone object exists); the lookup of the zone's style goes through that key.
   */
  function BindRefs(a: Annotation, zones: seq<Zone>, styles: map<string, Style>): Result<Annotation>
  {
    match FindZone(zones, a.zone.key)
    case None => Err("KeyError: no zone " + a.zone.key)
    case Some(i) =>
      match a.style
      case Named(s) => if s in styles then Ok(a.(zone := ZoneBound(a.zone.key), style := Bound(s))) else Err("KeyError: no style " + s)
      case Unset => Ok(a.(zone := ZoneBound(a.zone.key), style := zones[i].style))
      case Bound(_) => Ok(a.(zone := ZoneBound(a.zone.key)))
  }

  /** An annotation whose zone and style are objects of the configuration's tables. */
  ghost predicate IsBound(a: Annotation, zones: seq<Zone>, styles: map<string, Style>) {
    a.zone.ZoneBound? && HasZone(zones, a.zone.key) && a.style.Bound? && a.style.key in styles
  }

  /**
   * Binding fails exactly on an unknown zone or an unknown style name; otherwise the zone
   * becomes the object of that name, a style name the style of that name, an absent style
   * the zone's style, and nothing else of the annotation changes.
   */
  lemma BindSpec(a: Annotation, zones: seq<Zone>, styles: map<string, Style>)
    requires DistinctNames(zones)
    ensures BindRefs(a, zones, styles).Ok? <==> HasZone(zones, a.zone.key) && (a.style.Named? ==> a.style.name in styles)
    ensures BindRefs(a, zones, styles).Ok? ==>
      var r := BindRefs(a, zones, styles).value;
      && r.zone == ZoneBound(a.zone.key)
      && r.position == a.position && r.text == a.text && r.kind == a.kind
      && (a.style.Named? ==> r.style == Bound(a.style.name))
      && (a.style.Bound? ==> r.style == a.style)
      && (a.style.Unset? ==> forall i :: 0 <= i < |zones| && zones[i].name == a.zone.key ==> r.style == zones[i].style)
  {
    match FindZone(zones, a.zone.key)
    case None =>
    case Some(j) =>
      forall i | 0 <= i < |zones| && zones[i].name == a.zone.key
        ensures i == j
      {
        FindZoneUnique(zones, i);
      }
  }

  /** On a well-formed table, a bound annotation refers to a zone and a style that exist. */
  lemma BindBound(a: Annotation, zones: seq<Zone>, styles: map<string, Style>)
    requires WellFormed(zones, styles) && BindRefs(a, zones, styles).Ok?
    requires a.style.Bound? ==> a.style.key in styles
    ensures IsBound(BindRefs(a, zones, styles).value, zones, styles)
  {
  }

  /** An annotation whose references are already objects is left alone. */
  lemma BindKeepsBound(a: Annotation, zones: seq<Zone>, styles: map<string, Style>)
    requires IsBound(a, zones, styles)
    ensures BindRefs(a, zones, styles) == Ok(a)
  {
    assert FindZone(zones, a.zone.key).Some?;
  }

  /** Binding twice binds nothing more. */
  lemma BindIdempotent(a: Annotation, zones: seq<Zone>, styles: map<string, Style>)
    requires WellFormed(zones, styles) && BindRefs(a, zones, styles).Ok?
    requires a.style.Bound? ==> a.style.key in styles
    ensures BindRefs(BindRefs(a, zones, styles).value, zones, styles) == BindRefs(a, zones, styles)
  {
    BindBound(a, zones, styles);
    BindKeepsBound(BindRefs(a, zones, styles).value, zones, styles);
  }

  /** The inner loop of `add_annotations` over one list: every annotation bound, in order, or the first failure. */
  function BindList(v: seq<Annotation>, zones: seq<Zone>, styles: map<string, Style>): (r: Result<seq<Annotation>>)
    ensures r.Ok? ==> |r.value| == |v|
  {
    if v == [] then Ok([])
    else
      match BindList(v[..|v| - 1], zones, styles)
      case Err(e) => Err(e)
      case Ok(init) =>
        match BindRefs(v[|v| - 1], zones, styles)
        case Err(e) => Err(e)
        case Ok(b) => Ok(init + [b])
  }

  /** A bound list holds, at each index, the binding of the annotation there. */
  lemma {:induction false} BindListAt(v: seq<Annotation>, zones: seq<Zone>, styles: map<string, Style>, i: nat)
    requires i < |v| && BindList(v, zones, styles).Ok?
    ensures BindRefs(v[i], zones, styles) == Ok(BindList(v, zones, styles).value[i])
  {
    var n := |v| - 1;
    if i < n {
      BindListAt(v[..n], zones, styles, i);
      assert v[..n][i] == v[i];
    }
  }

  /** The list is bound exactly when each of its annotations is. */
  lemma {:induction false} BindListOk(v: seq<Annotation>, zones: seq<Zone>, styles: map<string, Style>)
    ensures BindList(v, zones, styles).Ok? <==> forall i :: 0 <= i < |v| ==> BindRefs(v[i], zones, styles).Ok?
  {
    if v != [] {
      var init := v[..|v| - 1];
      BindListOk(init, zones, styles);
      assert forall i :: 0 <= i < |init| ==> init[i] == v[i];
      if BindList(v, zones, styles).Ok? {
        forall i | 0 <= i < |v|
          ensures BindRefs(v[i], zones, styles).Ok?
        {
          BindListAt(v, zones, styles, i);
        }
      }
    }
  }

  /** Once a prefix fails, the whole list fails with the same error. */
  lemma {:induction false} BindListFailure(v: seq<Annotation>, zones: seq<Zone>, styles: map<string, Style>, i: nat)
    requires i <= |v| && BindList(v[..i], zones, styles).Err?
    ensures BindList(v, zones, styles) == BindList(v[..i], zones, styles)
  {
    if i < |v| {
      var init := v[..|v| - 1];
      assert init[..i] == v[..i];
      BindListFailure(init, zones, styles, i);
    } else {
      assert v[..i] == v;
    }
  }

  /** On a well-formed table every annotation of a bound list is bound. */
  lemma BindListBound(v: seq<Annotation>, zones: seq<Zone>, styles: map<string, Style>)
    requires WellFormed(zones, styles) && BindList(v, zones, styles).Ok?
    requires forall i :: 0 <= i < |v| && v[i].style.Bound? ==> v[i].style.key in styles
    ensures forall i :: 0 <= i < |v| ==> IsBound(BindList(v, zones, styles).value[i], zones, styles)
  {
    forall i | 0 <= i < |v|
      ensures IsBound(BindList(v, zones, styles).value[i], zones, styles)
    {
      BindListAt(v, zones, styles, i);
      BindBound(v[i], zones, styles);
    }
  }

  /** The annotations stored for a frame number, none when the number has no bucket. */
  function Bucket(anno: map<int, seq<Annotation>>, k: int): seq<Annotation> {
    if k in anno then anno[k] else []
  }

  /** `if k not in self.anno: self.anno[k] = []` then `self.anno[k].extend(v)`. */
  function Extend(anno: map<int, seq<Annotation>>, k: int, v: seq<Annotation>): (r: map<int, seq<Annotation>>)
    ensures r.Keys == anno.Keys + {k}
    ensures forall j :: Bucket(r, j) == if j == k then Bucket(anno, j) + v else Bucket(anno, j)
  {
    anno[k := Bucket(anno, k) + v]
  }

  /** The annotation file: its frame-number buckets, in the order of the `annotations` dictionary. */
  type AnnotationFile = seq<(int, seq<Annotation>)>

  /**
   * The outer loop of `add_annotations`: the buckets after the entries of `config` are
   * bound and appended in order, and the error that stopped the loop, if any. An entry
   * whose binding fails is not appended; the entries before it stay appended.
   */
  function AddAll(anno: map<int, seq<Annotation>>, config: AnnotationFile, zones: seq<Zone>, styles: map<string, Style>)
    : (r: (map<int, seq<Annotation>>, Option<string>))
  {
    if config == [] then (anno, None)
    else
      var prev := AddAll(anno, config[..|config| - 1], zones, styles);
      var last := config[|config| - 1];
      if prev.1.Some? then prev
      else
        match BindList(last.1, zones, styles)
        case Err(e) => (prev.0, Some(e))
        case Ok(b) => (Extend(prev.0, last.0, b), None)
  }

  /** What the entries of `config` under frame number `k` contribute once bound, in file order. */
  function Gathered(config: AnnotationFile, k: int, zones: seq<Zone>, styles: map<string, Style>): seq<Annotation> {
    if config == [] then []
    else
      var last := config[|config| - 1];
      Gathered(config[..|config| - 1], k, zones, styles)
        + (if last.0 == k && BindList(last.1, zones, styles).Ok? then BindList(last.1, zones, styles).value else [])
  }

  /** The call fails exactly when some entry holds an annotation that cannot be bound. */
  lemma AddAllFails(anno: map<int, seq<Annotation>>, config: AnnotationFile, zones: seq<Zone>, styles: map<string, Style>)
    ensures AddAll(anno, config, zones, styles).1.Some? <==> exists j :: 0 <= j < |config| && BindList(config[j].1, zones, styles).Err?
  {
    if AddAll(anno, config, zones, styles).1.Some? {
      var j := FailingEntry(anno, config, zones, styles);
    } else if j :| 0 <= j < |config| && BindList(config[j].1, zones, styles).Err? {
      EntryFails(anno, config, zones, styles, j);
    }
  }

  /** The entry that stopped a failed call. */
  lemma {:induction false} FailingEntry(anno: map<int, seq<Annotation>>, config: AnnotationFile, zones: seq<Zone>, styles: map<string, Style>)
    returns (j: nat)
    requires AddAll(anno, config, zones, styles).1.Some?
    ensures j < |config| && BindList(config[j].1, zones, styles).Err?
  {
    var n := |config| - 1;
    var init := config[..n];
    if AddAll(anno, init, zones, styles).1.Some? {
      j := FailingEntry(anno, init, zones, styles);
      assert init[j] == config[j];
    } else {
      j := n;
    }
  }

  /** An entry that cannot be bound makes the call fail. */
  lemma {:induction false} EntryFails(anno: map<int, seq<Annotation>>, config: AnnotationFile, zones: seq<Zone>, styles: map<string, Style>, j: nat)
    requires j < |config| && BindList(config[j].1, zones, styles).Err?
    ensures AddAll(anno, config, zones, styles).1.Some?
  {
    var n := |config| - 1;
    var init := config[..n];
    if j < n {
      assert init[j] == config[j];
      EntryFails(anno, init, zones, styles, j);
      assert AddAll(anno, init, zones, styles).1.Some?;
    } else {
      assert config[n].1 == config[j].1;
    }
  }

  /**
   * After a successful call every bucket is the old bucket followed by what the file
   * holds for that frame number, bound and in order: earlier entries are kept, and a
   * frame number the file does not mention keeps its bucket.
   */
  lemma AddAllBuckets(anno: map<int, seq<Annotation>>, config: AnnotationFile, zones: seq<Zone>, styles: map<string, Style>)
    requires AddAll(anno, config, zones, styles).1.None?
    ensures forall k :: Bucket(AddAll(anno, config, zones, styles).0, k) == Bucket(anno, k) + Gathered(config, k, zones, styles)
  {
    forall k
      ensures Bucket(AddAll(anno, config, zones, styles).0, k) == Bucket(anno, k) + Gathered(config, k, zones, styles)
    {
      AddAllBucketAt(anno, config, zones, styles, k);
    }
  }

  /** A successful call on a non-empty file: the call on all but the last entry, then the last entry appended. */
  lemma AddAllLast(anno: map<int, seq<Annotation>>, config: AnnotationFile, zones: seq<Zone>, styles: map<string, Style>)
    requires config != [] && AddAll(anno, config, zones, styles).1.None?
    ensures var init, last := config[..|config| - 1], config[|config| - 1];
      && AddAll(anno, init, zones, styles).1.None?
      && BindList(last.1, zones, styles).Ok?
      && AddAll(anno, config, zones, styles).0
        == Extend(AddAll(anno, init, zones, styles).0, last.0, BindList(last.1, zones, styles).value)
  {
  }

  /** The bucket of one frame number after a successful call. */
  lemma {:induction false} AddAllBucketAt(anno: map<int, seq<Annotation>>, config: AnnotationFile, zones: seq<Zone>, styles: map<string, Style>, k: int)
    requires AddAll(anno, config, zones, styles).1.None?
    ensures Bucket(AddAll(anno, config, zones, styles).0, k) == Bucket(anno, k) + Gathered(config, k, zones, styles)
  {
    if config != [] {
      var init := config[..|config| - 1];
      var last := config[|config| - 1];
      AddAllLast(anno, config, zones, styles);
      var prev := AddAll(anno, init, zones, styles).0;
      var bound := BindList(last.1, zones, styles).value;
      var extra := if last.0 == k then bound else [];
      calc {
        Bucket(AddAll(anno, config, zones, styles).0, k);
        Bucket(Extend(prev, last.0, bound), k);
        Bucket(prev, k) + extra;
        { AddAllBucketAt(anno, init, zones, styles, k); }
        Bucket(anno, k) + Gathered(init, k, zones, styles) + extra;
        { assert forall a: seq<Annotation>, b, c :: a + b + c == a + (b + c); }
        Bucket(anno, k) + (Gathered(init, k, zones, styles) + extra);
        Bucket(anno, k) + Gathered(config, k, zones, styles);
      }
    }
  }

  /** A frame number that no entry of the file names gets nothing. */
  lemma {:induction false} GatheredOther(config: AnnotationFile, k: int, zones: seq<Zone>, styles: map<string, Style>)
    requires forall j :: 0 <= j < |config| ==> config[j].0 != k
    ensures Gathered(config, k, zones, styles) == []
  {
    if config != [] {
      var init := config[..|config| - 1];
      assert forall j :: 0 <= j < |init| ==> init[j] == config[j];
      GatheredOther(init, k, zones, styles);
    }
  }

  /** One more entry of the file: bound and appended, or the error that stops the loop. */
  lemma AddAllStep(anno: map<int, seq<Annotation>>, config: AnnotationFile, i: nat, zones: seq<Zone>, styles: map<string, Style>)
    requires i < |config| && AddAll(anno, config[..i], zones, styles).1.None?
    ensures BindList(config[i].1, zones, styles).Err? ==>
      AddAll(anno, config[..i + 1], zones, styles)
        == (AddAll(anno, config[..i], zones, styles).0, Some(BindList(config[i].1, zones, styles).reason))
    ensures BindList(config[i].1, zones, styles).Ok? ==>
      AddAll(anno, config[..i + 1], zones, styles)
        == (Extend(AddAll(anno, config[..i], zones, styles).0, config[i].0, BindList(config[i].1, zones, styles).value), None)
  {
    assert config[..i + 1][..i] == config[..i];
  }

  /** Once a prefix of the file fails, the rest of it is not looked at. */
  lemma {:induction false} AddAllFailure(anno: map<int, seq<Annotation>>, config: AnnotationFile, zones: seq<Zone>, styles: map<string, Style>, i: nat)
    requires i <= |config| && AddAll(anno, config[..i], zones, styles).1.Some?
    ensures AddAll(anno, config, zones, styles) == AddAll(anno, config[..i], zones, styles)
  {
    if i < |config| {
      var init := config[..|config| - 1];
      assert init[..i] == config[..i];
      AddAllFailure(anno, init, zones, styles, i);
    } else {
      assert config[..i] == config;
    }
  }

  /** Every stored annotation is bound. */
  ghost predicate AllBound(anno: map<int, seq<Annotation>>, zones: seq<Zone>, styles: map<string, Style>) {
    forall k :: k in anno ==> forall i :: 0 <= i < |anno[k]| ==> IsBound(anno[k][i], zones, styles)
  }

  /** Styles named as objects in an annotation file are objects of the style table. */
  ghost predicate StylesKnown(config: AnnotationFile, styles: map<string, Style>) {
    forall j, i :: 0 <= j < |config| && 0 <= i < |config[j].1| && config[j].1[i].style.Bound? ==> config[j].1[i].style.key in styles
  }

  /** Adding annotations keeps every stored annotation bound, whether or not the call fails. */
  lemma {:induction false} AddAllBound(anno: map<int, seq<Annotation>>, config: AnnotationFile, zones: seq<Zone>, styles: map<string, Style>)
    requires WellFormed(zones, styles) && AllBound(anno, zones, styles) && StylesKnown(config, styles)
    ensures AllBound(AddAll(anno, config, zones, styles).0, zones, styles)
  {
    if config != [] {
      var init := config[..|config| - 1];
      assert forall j :: 0 <= j < |init| ==> init[j] == config[j];
      AddAllBound(anno, init, zones, styles);
      var prev := AddAll(anno, init, zones, styles);
      var last := config[|config| - 1];
      if prev.1.None? && BindList(last.1, zones, styles).Ok? {
        BindListBound(last.1, zones, styles);
        var b := BindList(last.1, zones, styles).value;
        var m := Extend(prev.0, last.0, b);
        forall k | k in m
          ensures forall i :: 0 <= i < |m[k]| ==> IsBound(m[k][i], zones, styles)
        {
          assert m[k] == Bucket(m, k);
        }
      }
    }
  }

  // ---------------------------------------------------------------------------
  // Drawing: the commands a frame issues on its canvas
  // ---------------------------------------------------------------------------

  /** A text bounding box `(left, top, right, bottom)`, as `font.getbbox` returns it. */
  datatype BBox = BBox(left: int, top: int, right: int, bottom: int)

  /**
   * A drawing operation of PIL: `Image.new` of the full canvas, `paste` of the original
   * frame, `ImageDraw.rectangle` (corners, line width, outline and fill colour) and
   * `ImageDraw.text` (anchor point, text, anchor code, font and fill colour).
   */
  datatype Cmd =
    | NewCanvas(w: int, h: int)
    | Paste(x: int, y: int)
    | Rect(x0: int, y0: int, x1: int, y1: int, width: int, outline: Option<Rgb>, fill: Option<Rgb>)
    | Text(x: int, y: int, text: string, anchor: string, font: Font, color: Rgb)

  /**
   * One drawing call of the compositor; `caught` marks the one call wrapped in
   * `try`/`except` (`canvas.text` in `drawtext`), whose failure is printed and skipped.
   */
  datatype Step = Step(cmd: Cmd, caught: bool)

  /**
   * The display list left after the steps run on a canvas that already shows `out`:
   * a failing step that is caught draws nothing, any other failing step raises and
   * the frame is lost. `fails` says which drawing calls PIL rejects.
   */
  function Exec(out: seq<Cmd>, steps: seq<Step>, fails: Cmd -> bool): Result<seq<Cmd>>
    decreases |steps|
  {
    if steps == [] then Ok(out)
    else if !fails(steps[0].cmd) then Exec(out + [steps[0].cmd], steps[1..], fails)
    else if steps[0].caught then Exec(out, steps[1..], fails)
    else Err(DRAW_FAILED)
  }

  /** Some step fails and is not caught. */
  ghost predicate Raises(steps: seq<Step>, fails: Cmd -> bool) {
    exists i :: 0 <= i < |steps| && fails(steps[i].cmd) && !steps[i].caught
  }

  /** The commands of the steps that succeed, in order. */
  function Drawn(steps: seq<Step>, fails: Cmd -> bool): seq<Cmd> {
    if steps == [] then []
    else (if fails(steps[0].cmd) then [] else [steps[0].cmd]) + Drawn(steps[1..], fails)
  }

  /**
   * Running steps raises exactly when a step that is not caught fails; otherwise the
   * canvas gains the commands of the succeeding steps, in order.
   */
  lemma {:induction false} ExecSpec(out: seq<Cmd>, steps: seq<Step>, fails: Cmd -> bool)
    ensures Exec(out, steps, fails).Err? <==> Raises(steps, fails)
    ensures Exec(out, steps, fails).Ok? ==> Exec(out, steps, fails).value == out + Drawn(steps, fails)
    decreases |steps|
  {
    if steps == [] {
      assert out + [] == out;
    } else {
      RaisesCons(steps, fails);
      var c, rest := steps[0].cmd, steps[1..];
      if !fails(c) {
        ExecSpec(out + [c], rest, fails);
        assert Drawn(steps, fails) == [c] + Drawn(rest, fails);
      } else if steps[0].caught {
        ExecSpec(out, rest, fails);
        assert Drawn(steps, fails) == [] + Drawn(rest, fails);
      }
    }
  }

  /** Some step raises exactly when the first one does or one of the rest does. */
  lemma RaisesCons(steps: seq<Step>, fails: Cmd -> bool)
    requires steps != []
    ensures Raises(steps, fails) <==> (fails(steps[0].cmd) && !steps[0].caught) || Raises(steps[1..], fails)
  {
    if Raises(steps[1..], fails) {
      var i :| 0 <= i < |steps[1..]| && fails(steps[1..][i].cmd) && !steps[1..][i].caught;
      assert fails(steps[i + 1].cmd) && !steps[i + 1].caught;
    }
    if Raises(steps, fails) && !(fails(steps[0].cmd) && !steps[0].caught) {
      var i :| 0 <= i < |steps| && fails(steps[i].cmd) && !steps[i].caught;
      assert steps[1..][i - 1] == steps[i];
    }
  }

  /** With no failing call, the canvas gains every command, in order. */
  lemma {:induction false} ExecAllDrawn(out: seq<Cmd>, steps: seq<Step>, fails: Cmd -> bool)
    requires forall i :: 0 <= i < |steps| ==> !fails(steps[i].cmd)
    ensures Exec(out, steps, fails) == Ok(out + Commands(steps))
    decreases |steps|
  {
    if steps != [] {
      assert !fails(steps[0].cmd);
      ExecAllDrawn(out + [steps[0].cmd], steps[1..], fails);
      assert out + [steps[0].cmd] + Commands(steps[1..]) == out + Commands(steps);
    } else {
      assert out + [] == out;
    }
  }

  /** The commands of the steps. */
  function Commands(steps: seq<Step>): (r: seq<Cmd>)
    ensures |r| == |steps| && forall i :: 0 <= i < |steps| ==> r[i] == steps[i].cmd
  {
    if steps == [] then [] else [steps[0].cmd] + Commands(steps[1..])
  }

  /** One step on its own. */
  lemma ExecOne(out: seq<Cmd>, step: Step, fails: Cmd -> bool)
    ensures Exec(out, [step], fails)
         == if !fails(step.cmd) then Ok(out + [step.cmd]) else if step.caught then Ok(out) else Err(DRAW_FAILED)
  {
    assert [step][1..] == [];
  }

  /** Running two lists of steps one after the other runs their concatenation. */
  lemma {:induction false} ExecAppend(out: seq<Cmd>, a: seq<Step>, b: seq<Step>, fails: Cmd -> bool)
    ensures Exec(out, a + b, fails) == match Exec(out, a, fails) case Ok(o) => Exec(o, b, fails) case Err(e) => Err(e)
    decreases |a|
  {
    if a != [] {
      assert (a + b)[0] == a[0] && (a + b)[1..] == a[1..] + b;
      var next := if fails(a[0].cmd) then out else out + [a[0].cmd];
      ExecAppend(next, a[1..], b, fails);
    } else {
      assert a + b == b;
    }
  }

  /** Every failure of a frame is the same exception. */
  lemma {:induction false} ExecError(out: seq<Cmd>, steps: seq<Step>, fails: Cmd -> bool)
    ensures Exec(out, steps, fails).Err? ==> Exec(out, steps, fails) == Err(DRAW_FAILED)
    decreases |steps|
  {
    if steps != [] {
      ExecError(if fails(steps[0].cmd) then out else out + [steps[0].cmd], steps[1..], fails);
    }
  }

  /** A frame that raises in a prefix of its steps raises, with the same error, whatever follows. */
  lemma ExecPrefixRaises(out: seq<Cmd>, done: seq<Step>, steps: seq<Step>, fails: Cmd -> bool)
    requires done <= steps && Exec(out, done, fails).Err?
    ensures Exec(out, steps, fails) == Exec(out, done, fails)
  {
    ExecSpec(out, done, fails);
    ExecSpec(out, steps, fails);
    var i :| 0 <= i < |done| && fails(done[i].cmd) && !done[i].caught;
    assert steps[i] == done[i];
    ExecError(out, done, fails);
    ExecError(out, steps, fails);
  }

  /** The canvas: the commands drawn on it so far; `fails` says which calls PIL rejects. */
  class Canvas {
    const fails: Cmd -> bool
    var cmds: seq<Cmd>

    /** `Image.new` followed by `ImageDraw.Draw`, before anything is drawn. */
    constructor (fails: Cmd -> bool)
      ensures this.fails == fails && cmds == []
    {
      this.fails := fails;
      cmds := [];
    }

    /** One PIL call: it draws `cmd`, or raises (`ok` false) and draws nothing. */
    method Draw(cmd: Cmd) returns (ok: bool)
      modifies this
      ensures ok == !fails(cmd)
      ensures cmds == old(cmds) + (if ok then [cmd] else [])
    {
      ok := !fails(cmd);
      if ok {
        cmds := cmds + [cmd];
      }
    }
  }

  /** `drawtext`: the optional background box under the text's bounding box, then the text, both at `self.position` in the zone. */
  function TextSteps(zone: Zone, style: Style, position: (int, int), text: string, fill: bool, anchor: string, bbox: (Font, string) -> BBox)
    : seq<Step>
  {
    var origin := GetXY(zone, position.0, position.1);
    var b := bbox(style.font, text);
    (if fill then [Step(Rect(origin.0 + b.left, origin.1 + b.top, origin.0 + b.right, origin.1 + b.bottom, 1, None, style.background), false)] else [])
      + [Step(Text(origin.0, origin.1, text, anchor, style.font, style.foreground), true)]
  }

  /** `drawborder`: with a non-zero border, the outline in the foreground colour and a one-pixel frame around it in the background colour. */
  function BorderSteps(zone: Zone, style: Style, x: int, y: int, w: int, h: int): seq<Step> {
    var origin := GetXY(zone, x, y);
    if style.border != 0 then
      [ Step(Rect(origin.0, origin.1, origin.0 + w, origin.1 + h, style.border, Some(style.foreground), None), false),
        Step(Rect(origin.0 - 1, origin.1 - 1, origin.0 + w + 1, origin.1 + h + 1, 1, style.background, None), false) ]
    else []
  }

  /** The zone object a bound annotation refers to. */
  function ZoneOf(a: Annotation, zones: seq<Zone>): Zone
    requires HasZone(zones, a.zone.key)
  {
    zones[FindZone(zones, a.zone.key).value]
  }

  /** `annotate` of a bound text or box annotation. */
  function AnnotationSteps(a: Annotation, zones: seq<Zone>, styles: map<string, Style>, bbox: (Font, string) -> BBox): seq<Step>
    requires IsBound(a, zones, styles)
  {
    var zone := ZoneOf(a, zones);
    var style := styles[a.style.key];
    match a.kind
    case TextKind(fill) => TextSteps(zone, style, a.position, a.text, fill, "la", bbox)
    case BoxKind(w, h) =>
      BorderSteps(zone, style, a.position.0, a.position.1, w, h)
        + (if a.text != "" then TextSteps(zone, style, a.position, a.text, true, "ld", bbox) else [])
  }

  /** The steps of the annotations of one bucket, in list order. */
  function BucketSteps(bucket: seq<Annotation>, zones: seq<Zone>, styles: map<string, Style>, bbox: (Font, string) -> BBox): seq<Step>
    requires forall i :: 0 <= i < |bucket| ==> IsBound(bucket[i], zones, styles)
  {
    if bucket == [] then []
    else BucketSteps(bucket[..|bucket| - 1], zones, styles, bbox) + AnnotationSteps(bucket[|bucket| - 1], zones, styles, bbox)
  }

  /** The outline `annotate_frame` draws for a zone. */
  function Outline(z: Zone): Step {
    Step(Rect(z.x, z.y, z.x + z.w, z.y + z.h, 1, None, None), false)
  }

  /** The outlines of the zones, in dictionary order. */
  function Outlines(zones: seq<Zone>): seq<Step> {
    if zones == [] then [] else Outlines(zones[..|zones| - 1]) + [Outline(zones[|zones| - 1])]
  }

  /** `annotate_frame`: the canvas, the frame pasted at the content origin, the zone outlines, then the annotations of the frame. */
  function FramePlan(zones: seq<Zone>, styles: map<string, Style>, width: int, height: int, cx: int, cy: int,
                     bucket: seq<Annotation>, bbox: (Font, string) -> BBox): seq<Step>
    requires forall i :: 0 <= i < |bucket| ==> IsBound(bucket[i], zones, styles)
  {
    [Step(NewCanvas(width, height), false), Step(Paste(cx, cy), false)] + Outlines(zones) + BucketSteps(bucket, zones, styles, bbox)
  }

  /** Outline `i` of the list is the outline of zone `i`. */
  lemma {:induction false} OutlinesSpec(zones: seq<Zone>)
    ensures |Outlines(zones)| == |zones|
    ensures forall i :: 0 <= i < |zones| ==> Outlines(zones)[i] == Outline(zones[i])
  {
    if zones != [] {
      var init := zones[..|zones| - 1];
      OutlinesSpec(init);
      assert forall i :: 0 <= i < |init| ==> init[i] == zones[i];
    }
  }

  /** The outlines of the first zones start the outlines of all of them. */
  lemma OutlinesPrefix(zones: seq<Zone>, i: nat)
    requires i <= |zones|
    ensures Outlines(zones[..i]) <= Outlines(zones)
  {
    OutlinesSpec(zones);
    OutlinesSpec(zones[..i]);
  }

  /** The plan of the first annotations of a bucket starts the plan of the whole bucket. */
  lemma {:induction false} BucketStepsPrefix(bucket: seq<Annotation>, j: nat, zones: seq<Zone>, styles: map<string, Style>, bbox: (Font, string) -> BBox)
    requires j <= |bucket| && forall i :: 0 <= i < |bucket| ==> IsBound(bucket[i], zones, styles)
    ensures BucketSteps(bucket[..j], zones, styles, bbox) <= BucketSteps(bucket, zones, styles, bbox)
    decreases |bucket|
  {
    if j < |bucket| {
      var init := bucket[..|bucket| - 1];
      assert init[..j] == bucket[..j];
      BucketStepsPrefix(init, j, zones, styles, bbox);
    } else {
      assert bucket[..j] == bucket;
    }
  }

  /**
   * The shape of a frame's plan: the canvas of the padded size, the frame pasted at the
   * content origin, one outline per zone in dictionary order (`content` last on a
   * well-formed table), then the annotations; with no bucket for the frame, nothing more.
   */
  lemma FrameShape(zones: seq<Zone>, styles: map<string, Style>, width: int, height: int, cx: int, cy: int,
                   bucket: seq<Annotation>, bbox: (Font, string) -> BBox)
    requires forall i :: 0 <= i < |bucket| ==> IsBound(bucket[i], zones, styles)
    ensures var plan := FramePlan(zones, styles, width, height, cx, cy, bucket, bbox);
      && |plan| == 2 + |zones| + |BucketSteps(bucket, zones, styles, bbox)|
      && plan[0] == Step(NewCanvas(width, height), false)
      && plan[1] == Step(Paste(cx, cy), false)
      && (forall i :: 0 <= i < |zones| ==> plan[2 + i] == Outline(zones[i]))
      && (bucket == [] ==> |plan| == 2 + |zones|)
  {
    OutlinesSpec(zones);
  }

  /**
   * A box draws its two border rectangles only with a non-zero border and its caption (a
   * filled background and the text) only with a non-empty text; a text annotation draws
   * its text, over a filled background when asked. Every text is anchored at the zone
   * origin moved by the annotation's position, and only the text call is caught.
   */
  lemma AnnotationShape(a: Annotation, zones: seq<Zone>, styles: map<string, Style>, bbox: (Font, string) -> BBox)
    requires IsBound(a, zones, styles)
    ensures var steps := AnnotationSteps(a, zones, styles, bbox);
      var style := styles[a.style.key];
      var origin := GetXY(ZoneOf(a, zones), a.position.0, a.position.1);
      && (a.kind.BoxKind? ==> |steps| == (if style.border != 0 then 2 else 0) + (if a.text != "" then 2 else 0))
      && (a.kind.TextKind? ==> |steps| == if a.kind.fill then 2 else 1)
      && (forall i :: 0 <= i < |steps| ==> (steps[i].caught <==> steps[i].cmd.Text?))
      && (forall i :: 0 <= i < |steps| && steps[i].cmd.Text? ==>
            steps[i].cmd == Text(origin.0, origin.1, a.text, if a.kind.TextKind? then "la" else "ld", style.font, style.foreground))
  {
  }

  /** `drawtext`: the `x`, `y` arguments are ignored and the text goes to `self.position` in the zone. */
  method DrawText(canvas: Canvas, zone: Zone, style: Style, position: (int, int), x: int, y: int, text: string,
                  fill: bool, anchor: string, bbox: (Font, string) -> BBox) returns (ok: bool)
    modifies canvas
    ensures var e := Exec(old(canvas.cmds), TextSteps(zone, style, position, text, fill, anchor, bbox), canvas.fails);
      ok == e.Ok? && (ok ==> canvas.cmds == e.value)
  {
    var origin := GetXY(zone, position.0, position.1);
    var text_cmd := Text(origin.0, origin.1, text, anchor, style.font, style.foreground);
    ghost var start := canvas.cmds;
    if fill {
      var b := bbox(style.font, text);
      var box := Rect(origin.0 + b.left, origin.1 + b.top, origin.0 + b.right, origin.1 + b.bottom, 1, None, style.background);
      ok := canvas.Draw(box);
      ExecAppend(start, [Step(box, false)], [Step(text_cmd, true)], canvas.fails);
      if !ok {
        return;
      }
    }
    // the failure of `canvas.text` is caught, printed and ignored
    var drawn := canvas.Draw(text_cmd);
    ok := true;
  }

  /** `drawborder`: nothing without a border. */
  method DrawBorder(canvas: Canvas, zone: Zone, style: Style, x: int, y: int, w: int, h: int) returns (ok: bool)
    modifies canvas
    ensures var e := Exec(old(canvas.cmds), BorderSteps(zone, style, x, y, w, h), canvas.fails);
      ok == e.Ok? && (ok ==> canvas.cmds == e.value)
  {
    ok := true;
    if style.border != 0 {
      var origin := GetXY(zone, x, y);
      var inner := Rect(origin.0, origin.1, origin.0 + w, origin.1 + h, style.border, Some(style.foreground), None);
      var outer := Rect(origin.0 - 1, origin.1 - 1, origin.0 + w + 1, origin.1 + h + 1, 1, style.background, None);
      ghost var start := canvas.cmds;
      ExecAppend(start, [Step(inner, false)], [Step(outer, false)], canvas.fails);
      ok := canvas.Draw(inner);
      if ok {
        ok := canvas.Draw(outer);
      }
    }
  }

  /** `TextAnnotation.annotate` and `BoxAnnotation.annotate` of a bound annotation. */
  method DrawAnnotation(canvas: Canvas, a: Annotation, zones: seq<Zone>, styles: map<string, Style>, bbox: (Font, string) -> BBox)
    returns (ok: bool)
    requires IsBound(a, zones, styles)
    modifies canvas
    ensures var e := Exec(old(canvas.cmds), AnnotationSteps(a, zones, styles, bbox), canvas.fails);
      ok == e.Ok? && (ok ==> canvas.cmds == e.value)
  {
    var zone := ZoneOf(a, zones);
    var style := styles[a.style.key];
    match a.kind {
      case TextKind(fill) =>
        ok := DrawText(canvas, zone, style, a.position, a.position.0, a.position.1, a.text, fill, "la", bbox);
      case BoxKind(w, h) =>
        ghost var start := canvas.cmds;
        var border := BorderSteps(zone, style, a.position.0, a.position.1, w, h);
        var caption := if a.text != "" then TextSteps(zone, style, a.position, a.text, true, "ld", bbox) else [];
        ExecAppend(start, border, caption, canvas.fails);
        ok := DrawBorder(canvas, zone, style, a.position.0, a.position.1, w, h);
        if ok && a.text != "" {
          ok := DrawText(canvas, zone, style, a.position, a.position.0, a.position.1, a.text, true, "ld", bbox);
        } else if ok {
          assert Exec(canvas.cmds, caption, canvas.fails) == Ok(canvas.cmds);
        }
    }
  }

  /** The zone loop of `annotate_frame`: one outline per zone, in dictionary order. */
  method DrawOutlines(canvas: Canvas, zones: seq<Zone>) returns (ok: bool)
    modifies canvas
    ensures var e := Exec(old(canvas.cmds), Outlines(zones), canvas.fails);
      ok == e.Ok? && (ok ==> canvas.cmds == e.value)
  {
    ghost var start := canvas.cmds;
    var i := 0;
    while i < |zones|
      invariant 0 <= i <= |zones|
      invariant Exec(start, Outlines(zones[..i]), canvas.fails) == Ok(canvas.cmds)
    {
      assert zones[..i + 1][..i] == zones[..i];
      var z := zones[i];
      ExecAppend(start, Outlines(zones[..i]), [Outline(z)], canvas.fails);
      ok := canvas.Draw(Rect(z.x, z.y, z.x + z.w, z.y + z.h, 1, None, None));
      if !ok {
        OutlinesPrefix(zones, i + 1);
        ExecPrefixRaises(start, Outlines(zones[..i + 1]), Outlines(zones), canvas.fails);
        return;
      }
      i := i + 1;
    }
    assert zones[..i] == zones;
    ok := true;
  }

  /**
   * One more annotation of the bucket: its steps run after those of the ones before
   * it, and when they raise, the whole bucket raises with them.
   */
  lemma BucketStepsNext(start: seq<Cmd>, bucket: seq<Annotation>, j: nat, zones: seq<Zone>, styles: map<string, Style>,
                        bbox: (Font, string) -> BBox, fails: Cmd -> bool, cmds: seq<Cmd>)
    requires j < |bucket| && forall i :: 0 <= i < |bucket| ==> IsBound(bucket[i], zones, styles)
    requires Exec(start, BucketSteps(bucket[..j], zones, styles, bbox), fails) == Ok(cmds)
    ensures Exec(start, BucketSteps(bucket[..j + 1], zones, styles, bbox), fails)
      == Exec(cmds, AnnotationSteps(bucket[j], zones, styles, bbox), fails)
    ensures Exec(cmds, AnnotationSteps(bucket[j], zones, styles, bbox), fails).Err? ==>
      Exec(start, BucketSteps(bucket, zones, styles, bbox), fails) == Exec(cmds, AnnotationSteps(bucket[j], zones, styles, bbox), fails)
  {
    var done, next := BucketSteps(bucket[..j], zones, styles, bbox), AnnotationSteps(bucket[j], zones, styles, bbox);
    calc {
      Exec(start, BucketSteps(bucket[..j + 1], zones, styles, bbox), fails);
      { assert bucket[..j + 1][..j] == bucket[..j]; }
      Exec(start, done + next, fails);
      { ExecAppend(start, done, next, fails); }
      Exec(cmds, next, fails);
    }
    if Exec(cmds, AnnotationSteps(bucket[j], zones, styles, bbox), fails).Err? {
      BucketStepsPrefix(bucket, j + 1, zones, styles, bbox);
      ExecPrefixRaises(start, BucketSteps(bucket[..j + 1], zones, styles, bbox), BucketSteps(bucket, zones, styles, bbox), fails);
    }
  }

  /** The annotation loop of `annotate_frame`: each annotation of the bucket draws itself, in list order. */
  method DrawBucket(canvas: Canvas, bucket: seq<Annotation>, zones: seq<Zone>, styles: map<string, Style>, bbox: (Font, string) -> BBox)
    returns (ok: bool)
    requires forall i :: 0 <= i < |bucket| ==> IsBound(bucket[i], zones, styles)
    modifies canvas
    ensures var e := Exec(old(canvas.cmds), BucketSteps(bucket, zones, styles, bbox), canvas.fails);
      ok == e.Ok? && (ok ==> canvas.cmds == e.value)
  {
    ghost var start := canvas.cmds;
    var j := 0;
    while j < |bucket|
      invariant 0 <= j <= |bucket|
      invariant Exec(start, BucketSteps(bucket[..j], zones, styles, bbox), canvas.fails) == Ok(canvas.cmds)
    {
      BucketStepsNext(start, bucket, j, zones, styles, bbox, canvas.fails, canvas.cmds);
      ok := DrawAnnotation(canvas, bucket[j], zones, styles, bbox);
      if !ok {
        return;
      }
      j := j + 1;
    }
    assert bucket[..j] == bucket;
    ok := true;
  }

  /** The body of `annotate_frame`, run on a fresh canvas. */
  method DrawFrame(canvas: Canvas, width: int, height: int, cx: int, cy: int, zones: seq<Zone>, styles: map<string, Style>,
                   bucket: seq<Annotation>, bbox: (Font, string) -> BBox) returns (r: Result<seq<Cmd>>)
    requires canvas.cmds == []
    requires forall i :: 0 <= i < |bucket| ==> IsBound(bucket[i], zones, styles)
    modifies canvas
    ensures r == Exec([], FramePlan(zones, styles, width, height, cx, cy, bucket, bbox), canvas.fails)
  {
    ghost var fails := canvas.fails;
    ghost var header := [Step(NewCanvas(width, height), false), Step(Paste(cx, cy), false)];
    ghost var outlines := Outlines(zones);
    ghost var annotations := BucketSteps(bucket, zones, styles, bbox);
    assert header + outlines + annotations == header + (outlines + annotations);
    ExecAppend([], header, outlines + annotations, fails);

    var ok := canvas.Draw(NewCanvas(width, height));
    if !ok {
      return Err(DRAW_FAILED);
    }
    ok := canvas.Draw(Paste(cx, cy));
    assert header[1..] == [Step(Paste(cx, cy), false)];
    ExecOne([NewCanvas(width, height)], Step(Paste(cx, cy), false), fails);
    if !ok {
      return Err(DRAW_FAILED);
    }

    ghost var start := canvas.cmds;
    ExecAppend(start, outlines, annotations, fails);
    ok := DrawOutlines(canvas, zones);
    if !ok {
      ExecError(start, outlines, fails);
      return Err(DRAW_FAILED);
    }
    ok := DrawBucket(canvas, bucket, zones, styles, bbox);
    if !ok {
      ExecError(start, outlines + annotations, fails);
      return Err(DRAW_FAILED);
    }
    r := Ok(canvas.cmds);
  }

  /** The annotation engine: the zone configuration solved for the content size, and the annotation buckets. */
  class Annotate {
    const zc: ZoneConfig
    const width: int
    const height: int
    const cx: int
    const cy: int
    var anno: map<int, seq<Annotation>>

    /** The zone table is well formed, `(cx, cy)` is the content zone's origin, and every stored annotation is bound. */
    ghost predicate Valid()
      reads this, zc
    {
      && zc.Valid()
      && cx == zc.zones[|zc.zones| - 1].x && cy == zc.zones[|zc.zones| - 1].y
      && AllBound(anno, zc.zones, zc.styles)
    }

    /**
     * `Annotate.__init__`: solve the layout for the content size, keep the canvas size it
     * returns and the content zone's origin, and start with no annotations. The canvas
     * size and the origin in terms of the declared sizes are `Zones.LayoutSummary`.
     */
    constructor (zc: ZoneConfig, contentWidth: nat, contentHeight: nat)
      requires zc.Valid()
      modifies zc
      ensures Valid() && this.zc == zc && anno == map[]
      ensures zc.zones == Layout(old(zc.zones), contentWidth, contentHeight).zones
      ensures zc.styles == map k | k in old(zc.styles) :: ResolveFont(old(zc.styles)[k], contentHeight)
      ensures width == Layout(old(zc.zones), contentWidth, contentHeight).pwidth
      ensures height == RoundUpEven(Layout(old(zc.zones), contentWidth, contentHeight).pheight)
      ensures (cx, cy) == (zc.zones[|zc.zones| - 1].x, zc.zones[|zc.zones| - 1].y)
    {
      var w, h := zc.SetContentSize(contentWidth, contentHeight);
      FindZoneUnique(zc.zones, |zc.zones| - 1);
      var content := zc.GetZone(CONTENT);
      var origin := GetXY(content.value, 0, 0);
      this.zc := zc;
      width, height := w, h;
      cx, cy := origin.0, origin.1;
      anno := map[];
    }

    /** Lines 245-250 for one annotation: bind the zone, then the style. */
    method BindAnnotation(a: Annotation) returns (r: Result<Annotation>)
      ensures r == BindRefs(a, zc.zones, zc.styles)
    {
      var zone := zc.GetZone(a.zone.key);
      if zone.None? {
        return Err("KeyError: no zone " + a.zone.key);
      }
      var b := a.(zone := ZoneBound(a.zone.key));
      match a.style {
        case Named(s) =>
          var style := zc.GetStyle(Some(s));
          if style.None? {
            return Err("KeyError: no style " + s);
          }
          b := b.(style := Bound(s));
        case Unset =>
          b := b.(style := zone.value.style);
        case Bound(_) =>
      }
      r := Ok(b);
    }

    /** The inner loop of `add_annotations`: bind the annotations of one list in order; the first error is raised. */
    method BindEach(v: seq<Annotation>) returns (r: Result<seq<Annotation>>)
      ensures r == BindList(v, zc.zones, zc.styles)
    {
      var bound: seq<Annotation> := [];
      var j := 0;
      while j < |v|
        invariant 0 <= j <= |v|
        invariant BindList(v[..j], zc.zones, zc.styles) == Ok(bound)
      {
        assert v[..j + 1][..j] == v[..j];
        var b := BindAnnotation(v[j]);
        if b.Err? {
          BindListFailure(v, zc.zones, zc.styles, j + 1);
          return Err(b.reason);
        }
        bound := bound + [b.value];
        j := j + 1;
      }
      assert v[..j] == v;
      r := Ok(bound);
    }

    /**
     * `add_annotations`: bind every annotation of each bucket of the file, then append
     * the bucket to the engine's bucket for that frame number. The first binding error
     * is raised (`err`) and leaves the buckets appended before it.
     */
    method AddAnnotations(config: AnnotationFile) returns (err: Option<string>)
      requires Valid() && StylesKnown(config, zc.styles)
      modifies this
      ensures Valid()
      ensures (anno, err) == AddAll(old(anno), config, zc.zones, zc.styles)
    {
      AddAllBound(anno, config, zc.zones, zc.styles);
      var buckets;
      buckets, err := AppendEach(config);
      anno := buckets;
    }

    /** Lines 252-254: create the bucket when missing, then extend it. */
    static method AppendBucket(buckets: map<int, seq<Annotation>>, k: int, v: seq<Annotation>) returns (r: map<int, seq<Annotation>>)
      ensures r == Extend(buckets, k, v)
    {
      r := buckets;
      if k !in r {
        r := r[k := []];
      }
      r := r[k := r[k] + v];
    }

    /** The loop of `add_annotations` over the file's entries, on the engine's current buckets. */
    method AppendEach(config: AnnotationFile) returns (buckets: map<int, seq<Annotation>>, err: Option<string>)
      ensures (buckets, err) == AddAll(anno, config, zc.zones, zc.styles)
    {
      buckets := anno;
      var i := 0;
      while i < |config|
        invariant 0 <= i <= |config|
        invariant AddAll(anno, config[..i], zc.zones, zc.styles) == (buckets, None)
      {
        var k, v := config[i].0, config[i].1;
        var bound := BindEach(v);
        if bound.Err? {
          assert AddAll(anno, config, zc.zones, zc.styles) == (buckets, Some(bound.reason)) by {
            AddAllStep(anno, config, i, zc.zones, zc.styles);
            AddAllFailure(anno, config, zc.zones, zc.styles, i + 1);
          }
          return buckets, Some(bound.reason);
        }
        assert AddAll(anno, config[..i + 1], zc.zones, zc.styles) == (Extend(buckets, k, bound.value), None) by {
          AddAllStep(anno, config, i, zc.zones, zc.styles);
        }
        buckets := AppendBucket(buckets, k, bound.value);
        i := i + 1;
      }
      assert config[..i] == config;
      err := None;
    }

    /** What `annotate_frame` leaves on the canvas for frame `frameid`, or the failure it raises. */
    function FrameResult(frameid: int, fails: Cmd -> bool, bbox: (Font, string) -> BBox): Result<seq<Cmd>>
      reads this, zc
      requires Valid()
    {
      var bucket := Bucket(anno, frameid);
      assert forall i :: 0 <= i < |bucket| ==> IsBound(bucket[i], zc.zones, zc.styles);
      Exec([], FramePlan(zc.zones, zc.styles, width, height, cx, cy, bucket, bbox), fails)
    }

    /**
     * `annotate_frame`: a new canvas of the padded size, the frame pasted at the content
     * origin, the outline of every zone, then every annotation stored for the frame.
     */
    method AnnotateFrame(frameid: int, fails: Cmd -> bool, bbox: (Font, string) -> BBox) returns (r: Result<seq<Cmd>>)
      requires Valid()
      ensures r == FrameResult(frameid, fails, bbox)
    {
      var bucket := if frameid in anno then anno[frameid] else [];
      var canvas := new Canvas(fails);
      r := DrawFrame(canvas, width, height, cx, cy, zc.zones, zc.styles, bucket, bbox);
    }
  }
}
