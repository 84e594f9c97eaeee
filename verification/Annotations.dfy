/**
 Building, patching and reading an annotation. A patch changes in the projection
 what its arguments name and nothing else, and a move slides the content's own
 coordinates rigidly: moves compose, and a move back undoes a move.

 The envelope's entries are fields here, absent ones `None`; every other entry is
 in `content`.
 */
module Annotations {
  import opened Values

  datatype Spot = Spot(x: Option<real>, y: Option<real>)

  datatype Extent = Extent(w: Option<real>, h: Option<real>)

  datatype Geometry = Geometry(x: Option<real>, y: Option<real>, w: Option<real>, h: Option<real>, rotation: Option<real>)

  /** A stored annotation, or a patch that carries only some of its entries. */
  datatype Fields = Fields(id: Option<string>, typ: Option<string>, geometry: Option<Geometry>, position: Option<Spot>,
                           size: Option<Extent>, style: Option<Dict>, z: Option<real>, locked: Option<bool>, content: Dict,
                           version: Option<int>, createdBy: Json, updatedAt: Json)

  const NOTHING := Fields(None, None, None, None, None, None, None, None, map[], None, Null, Null)
  const NO_GEOMETRY := Geometry(None, None, None, None, None)

  const RESERVED: set<string> := {
    "id", "type", "kind", "geometry", "position", "size", "style", "z", "locked", "created_at", "updated_at",
    "created_by", "updated_by", "version", "field_versions" }

  /** The payload checks that depend on the type. */
  type Checks = (string, Dict) -> bool

  predicate ContentOk(checks: Checks, typ: string, content: Dict) {
    content != map[] ==> content.Keys !! RESERVED && checks(typ, content)
  }

  function Or<T>(a: Option<T>, b: Option<T>): Option<T> {
    if a.Some? then a else b
  }

  function DefaultZ(typ: string): real {
    if typ == "shape" then -1.0 else 0.0
  }

  // -------------------------------------------------------------- the builder

  datatype NewArgs = NewArgs(typ: string, x: real, y: real, w: Option<real>, h: Option<real>, rotation: Option<real>,
                             content: Dict, style: Option<Dict>, z: Option<real>, locked: bool, id: Option<string>)

  method BuildAnnotation(checks: Checks, g: NewArgs) returns (r: Option<Fields>)
    ensures r.Some? <==> ContentOk(checks, g.typ, g.content)
    ensures r.Some? ==> WellBuilt(r.value) && Project(r.value) == Requested(g)
  {
    var geometry := Geometry(Some(g.x), Some(g.y), Some(g.w.GetOr(0.0)), Some(g.h.GetOr(0.0)), Some(g.rotation.GetOr(0.0)));
    var a := NOTHING.(typ := Some(g.typ), position := Some(Spot(Some(g.x), Some(g.y))), geometry := Some(geometry),
                      z := Some(g.z.GetOr(DefaultZ(g.typ))), locked := Some(g.locked));
    if g.w.Some? || g.h.Some? {
      a := a.(size := Some(Extent(geometry.w, geometry.h)));
    }
    if g.style.Some? {
      a := a.(style := g.style);
    }
    if !ContentOk(checks, g.typ, g.content) {
      return None;
    }
    a := a.(content := a.content + g.content);
    if g.id.Some? {
      a := a.(id := g.id);
    }
    r := Some(a);
  }

  // --------------------------------------------------------------- the reader

  datatype Shown = Shown(id: Option<string>, typ: Option<string>, x: real, y: real, w: real, h: real, rotation: real,
                         style: Dict, z: real, locked: bool, content: Dict, version: int, createdBy: Json, updatedAt: Json)

  /** An empty object counts as absent. */
  function PositionOf(a: Fields): Spot {
    if a.position.Some? && (a.position.value.x.Some? || a.position.value.y.Some?) then a.position.value
    else
      var geometry := a.geometry.GetOr(NO_GEOMETRY);
      Spot(Some(geometry.x.GetOr(0.0)), Some(geometry.y.GetOr(0.0)))
  }

  function Project(a: Fields): Shown {
    var geometry := a.geometry.GetOr(NO_GEOMETRY);
    var position := PositionOf(a);
    var size := a.size.GetOr(Extent(None, None));
    Shown(a.id, a.typ, position.x.GetOr(0.0), position.y.GetOr(0.0),
          geometry.w.GetOr(size.w.GetOr(0.0)), geometry.h.GetOr(size.h.GetOr(0.0)), geometry.rotation.GetOr(0.0),
          a.style.GetOr(map[]), a.z.GetOr(0.0), a.locked.GetOr(false), a.content, a.version.GetOr(1), a.createdBy, a.updatedAt)
  }

  /** What a caller of the builder expects to read back. */
  function Requested(g: NewArgs): Shown {
    Shown(g.id, Some(g.typ), g.x, g.y, g.w.GetOr(0.0), g.h.GetOr(0.0), g.rotation.GetOr(0.0), g.style.GetOr(map[]),
          g.z.GetOr(DefaultZ(g.typ)), g.locked, g.content, 1, Null, Null)
  }

  /** What the builder makes and patches keep: a full geometry that agrees with the
      position and with the size, if there is one. */
  predicate WellBuilt(a: Fields) {
    && a.geometry.Some? && a.position.Some? && a.typ.Some?
    && var g := a.geometry.value;
    && g.x.Some? && g.y.Some? && g.w.Some? && g.h.Some? && g.rotation.Some?
    && a.position.value == Spot(g.x, g.y)
    && (a.size.Some? ==> a.size.value == Extent(g.w, g.h))
  }

  // ------------------------------------------------------------------- moving

  predicate PointLike(v: Json) {
    v.Obj? && Get(v.entries, "x").Num? && Get(v.entries, "y").Num?
  }

  function Slid(v: Json, dx: real, dy: real): Json {
    if PointLike(v) then
      Obj(v.entries["x" := Num(Get(v.entries, "x").n + dx)]["y" := Num(Get(v.entries, "y").n + dy)])
    else v
  }

  function SlidList(items: seq<Json>, dx: real, dy: real): seq<Json> {
    seq(|items|, i requires 0 <= i < |items| => Slid(items[i], dx, dy))
  }

  /** The content after a move by (dx, dy). */
  function SlidContent(c: Dict, dx: real, dy: real): Dict {
    map k | k in c ::
      if k == "from" || k == "to" then Slid(c[k], dx, dy)
      else if k == "points" && c[k].List? then List(SlidList(c[k].items, dx, dy))
      else c[k]
  }

  /** The ends among these keys, slid. */
  function SlidEnds(c: Dict, keys: seq<string>, dx: real, dy: real): Dict {
    map k | k in c && k in keys && PointLike(c[k]) :: Slid(c[k], dx, dy)
  }

  const ENDS: seq<string> := ["from", "to"]

  method TranslateLineEndpoints(c: Dict, dx: real, dy: real) returns (translated: Dict)
    ensures translated == SlidEnds(c, ENDS, dx, dy)
  {
    hide Slid;
    translated := map[];
    for i := 0 to |ENDS|
      invariant translated == SlidEnds(c, ENDS[..i], dx, dy)
    {
      assert ENDS[..i + 1] == ENDS[..i] + [ENDS[i]];
      var point := Get(c, ENDS[i]);
      if PointLike(point) {
        translated := translated[ENDS[i] := Slid(point, dx, dy)];
      }
    }
    assert ENDS[..|ENDS|] == ENDS;
  }

  method TranslateFreehandPoints(c: Dict, dx: real, dy: real) returns (translated: Dict)
    ensures translated ==
            if "points" in c && c["points"].List? && exists p :: p in c["points"].items && PointLike(p)
            then map["points" := List(SlidList(c["points"].items, dx, dy))] else map[]
  {
    var points := Get(c, "points");
    if !points.List? || points.items == [] {
      return map[];
    }
    var items := points.items;
    var moved: seq<Json> := [];
    var changed := false;
    for i := 0 to |items|
      invariant moved == SlidList(items[..i], dx, dy)
      invariant changed <==> exists p :: p in items[..i] && PointLike(p)
    {
      assert items[..i + 1] == items[..i] + [items[i]];
      if PointLike(items[i]) {
        moved := moved + [Slid(items[i], dx, dy)];
        changed := true;
      } else {
        moved := moved + [items[i]];
      }
    }
    assert items[..|items|] == items;
    translated := if changed then map["points" := List(moved)] else map[];
  }

  /** What a move adds to a patch: merged over the content, it slides it. */
  method TranslateContent(c: Dict, dx: real, dy: real) returns (patch: Dict)
    ensures c + patch == SlidContent(c, dx, dy)
  {
    patch := map[];
    var ends := TranslateLineEndpoints(c, dx, dy);
    patch := patch + ends;
    var points := TranslateFreehandPoints(c, dx, dy);
    patch := patch + points;
    SlidIsMerge(c, dx, dy);
  }

  // ---------------------------------------------------------------- the patch

  datatype Edit = Edit(x: Option<real>, y: Option<real>, w: Option<real>, h: Option<real>, rotation: Option<real>,
                       content: Dict, style: Option<Dict>, z: Option<real>, locked: Option<bool>)

  const NO_EDIT := Edit(None, None, None, None, None, map[], None, None, None)

  /** Merging a patch into the stored entries, as `dict.update` does. */
  function Merged(a: Fields, patch: Fields): Fields {
    Fields(Or(patch.id, a.id), Or(patch.typ, a.typ), Or(patch.geometry, a.geometry), Or(patch.position, a.position),
           Or(patch.size, a.size), Or(patch.style, a.style), Or(patch.z, a.z), Or(patch.locked, a.locked),
           a.content + patch.content, a.version, a.createdBy, a.updatedAt)
  }

  /** The store's commit: the merge and its bookkeeping. */
  function Stored(a: Fields, patch: Fields, now: Json): Fields {
    Merged(a, patch).(version := Some(a.version.GetOr(1) + 1), updatedAt := now)
  }

  /** How far an edit moves an annotation. */
  function Shift(a: Fields, e: Edit): (real, real) {
    var p := PositionOf(a);
    (e.x.GetOr(p.x.GetOr(0.0)) - p.x.GetOr(0.0), e.y.GetOr(p.y.GetOr(0.0)) - p.y.GetOr(0.0))
  }

  /** What the edit is meant to show: the given values, the slid content under the
      given content, and everything else as before. */
  function Edited(a: Fields, e: Edit, now: Json): Shown {
    var s, (dx, dy) := Project(a), Shift(a, e);
    Shown(s.id, s.typ, e.x.GetOr(s.x), e.y.GetOr(s.y), e.w.GetOr(s.w), e.h.GetOr(s.h), e.rotation.GetOr(s.rotation),
          e.style.GetOr(s.style), e.z.GetOr(s.z), e.locked.GetOr(s.locked),
          SlidContent(s.content, dx, dy) + e.content, s.version + 1, s.createdBy, now)
  }

  /** The size a resize starts from, which need not be the size that is shown. */
  function SizeOf(a: Fields): Extent {
    if a.size.Some? && (a.size.value.w.Some? || a.size.value.h.Some?) then a.size.value
    else
      var geometry := a.geometry.GetOr(NO_GEOMETRY);
      Extent(Some(geometry.w.GetOr(0.0)), Some(geometry.h.GetOr(0.0)))
  }

  /** What a resize shows: a dimension it does not name comes from the stored size. */
  function Resized(a: Fields, e: Edit): (real, real) {
    if e.w.None? && e.h.None? then (Project(a).w, Project(a).h)
    else (e.w.GetOr(SizeOf(a).w.GetOr(0.0)), e.h.GetOr(SizeOf(a).h.GetOr(0.0)))
  }

  /** What the edit shows, whatever is stored. */
  function ShownAfter(a: Fields, e: Edit, now: Json): Shown {
    Edited(a, e, now).(w := Resized(a, e).0, h := Resized(a, e).1)
  }

  /** A resize of one dimension finds the other stored as it is shown. */
  predicate SizesAgree(a: Fields, e: Edit) {
    && (e.w.Some? && e.h.None? ==> SizeOf(a).h.GetOr(0.0) == Project(a).h)
    && (e.h.Some? && e.w.None? ==> SizeOf(a).w.GetOr(0.0) == Project(a).w)
  }

  /** The patch an edit comes to. */
  function PatchFor(a: Fields, e: Edit, slid: Dict): Fields {
    var g := a.geometry.GetOr(NO_GEOMETRY);
    var moved, resized := e.x.Some? || e.y.Some?, e.w.Some? || e.h.Some?;
    var place := Spot(Some(e.x.GetOr(Project(a).x)), Some(e.y.GetOr(Project(a).y)));
    var extent := Extent(Some(Resized(a, e).0), Some(Resized(a, e).1));
    var g1 := if moved then g.(x := place.x, y := place.y) else g;
    var g2 := if resized then g1.(w := extent.w, h := extent.h) else g1;
    Fields(a.id, a.typ,
           if moved || resized || e.rotation.Some? then Some(g2.(rotation := Or(e.rotation, g.rotation))) else None,
           if moved then Some(place) else None, if resized then Some(extent) else None,
           e.style, e.z, e.locked, slid + e.content, None, Null, Null)
  }

  lemma PatchShows(a: Fields, e: Edit, slid: Dict)
    requires a.content + slid == SlidContent(a.content, Shift(a, e).0, Shift(a, e).1)
    ensures forall now :: Project(Stored(a, PatchFor(a, e, slid), now)) == ShownAfter(a, e, now)
  {
    hide SlidContent;
    assert a.content + (slid + e.content) == a.content + slid + e.content;
  }

  lemma PatchGrows(a: Fields, e: Edit, slid: Dict)
    ensures var bare := PatchFor(a, e.(content := map[], style := None, z := None, locked := None), slid);
            && bare.style == None && bare.z == None && bare.locked == None
            && PatchFor(a, e, slid) == bare.(style := e.style, z := e.z, locked := e.locked, content := slid + e.content)
  {
    hide Project, SizeOf;
  }

  lemma PatchKeepsBuild(a: Fields, e: Edit, slid: Dict)
    requires WellBuilt(a)
    ensures WellBuilt(Stored(a, PatchFor(a, e, slid), Null))
  {
  }

  /** An edit shows what it is meant to if and only if the stored size agrees with the
      shown one in the dimension that a resize leaves out. */
  lemma EditShownIff(a: Fields, e: Edit, now: Json)
    ensures ShownAfter(a, e, now) == Edited(a, e, now) <==> SizesAgree(a, e)
    ensures WellBuilt(a) ==> SizesAgree(a, e)
  {
    hide SlidContent, Shift;
  }

  /** The part of the patch that moves, resizes and rotates. */
  method PatchGeometry(a: Fields, e: Edit) returns (patch: Fields)
    ensures a.content + patch.content == SlidContent(a.content, Shift(a, e).0, Shift(a, e).1)
    ensures patch == PatchFor(a, e.(content := map[], style := None, z := None, locked := None), patch.content)
  {
    hide SlidContent;
    SlidByNothing(a.content);
    patch := NOTHING.(id := a.id, typ := a.typ);
    var geometry := a.geometry.GetOr(NO_GEOMETRY);
    var size := SizeOf(a);
    var position := PositionOf(a);
    var moved, resized := e.x.Some? || e.y.Some?, e.w.Some? || e.h.Some?;
    if moved {
      var x0, y0 := position.x.GetOr(0.0), position.y.GetOr(0.0);
      position := Spot(Some(e.x.GetOr(x0)), Some(e.y.GetOr(y0)));
      geometry := geometry.(x := position.x, y := position.y);
      patch := patch.(position := Some(position));
      var dx, dy := position.x.value - x0, position.y.value - y0;
      if dx != 0.0 || dy != 0.0 {
        var slid := TranslateContent(a.content, dx, dy);
        patch := patch.(content := slid);
      }
    }
    if resized {
      size := Extent(Some(e.w.GetOr(size.w.GetOr(0.0))), Some(e.h.GetOr(size.h.GetOr(0.0))));
      geometry := geometry.(w := size.w, h := size.h);
      patch := patch.(size := Some(size));
    }
    if e.rotation.Some? {
      geometry := geometry.(rotation := e.rotation);
    }
    if moved || resized || e.rotation.Some? {
      patch := patch.(geometry := Some(geometry));
    }
  }

  method BuildAnnotationPatch(checks: Checks, a: Fields, e: Edit) returns (r: Option<Fields>)
    ensures r.Some? <==> ContentOk(checks, a.typ.GetOr(""), e.content)
    ensures r.Some? ==> forall now :: Project(Stored(a, r.value, now)) == ShownAfter(a, e, now)
    ensures r.Some? ==> forall now :: Project(Stored(a, r.value, now)) == Edited(a, e, now) <==> SizesAgree(a, e)
    ensures r.Some? && WellBuilt(a) ==> SizesAgree(a, e) && WellBuilt(Stored(a, r.value, Null))
  {
    var typ := a.typ.GetOr("");
    hide SlidContent, Project, Edited, Stored, WellBuilt, ContentOk, ShownAfter, SizesAgree, PatchFor;
    var patch := PatchGeometry(a, e);
    ghost var slid := patch.content;
    if e.style.Some? {
      patch := patch.(style := e.style);
    }
    if e.z.Some? {
      patch := patch.(z := e.z);
    }
    if e.locked.Some? {
      patch := patch.(locked := e.locked);
    }
    if !ContentOk(checks, typ, e.content) {
      return None;
    }
    patch := patch.(content := patch.content + e.content);
    PatchGrows(a, e, slid);
    PatchShows(a, e, slid);
    if WellBuilt(a) {
      PatchKeepsBuild(a, e, slid);
    }
    forall now ensures ShownAfter(a, e, now) == Edited(a, e, now) <==> SizesAgree(a, e) {
      EditShownIff(a, e, now);
    }
    EditShownIff(a, e, Null);
    r := Some(patch);
  }

  /** Merging what the two translations give is sliding the content. */
  lemma SlidIsMerge(c: Dict, dx: real, dy: real)
    ensures var ends := SlidEnds(c, ENDS, dx, dy);
            var points := if "points" in c && c["points"].List? && exists p :: p in c["points"].items && PointLike(p)
                          then map["points" := List(SlidList(c["points"].items, dx, dy))] else map[];
            c + (map[] + ends + points) == SlidContent(c, dx, dy)
  {
    assert forall k :: k in ENDS <==> k == "from" || k == "to" by {
      assert ENDS[0] == "from" && ENDS[1] == "to";
    }
    hide PointLike;
    if "points" in c && c["points"].List? && !(exists p :: p in c["points"].items && PointLike(p)) {
      assert SlidList(c["points"].items, dx, dy) == c["points"].items;
    }
  }

  lemma SlidNothing(v: Json)
    ensures Slid(v, 0.0, 0.0) == v
  {
    if PointLike(v) {
      assert v.entries["x" := Num(v.entries["x"].n + 0.0)]["y" := Num(v.entries["y"].n + 0.0)] == v.entries;
    }
  }

  lemma SlidByNothing(c: Dict)
    ensures SlidContent(c, 0.0, 0.0) == c
  {
    hide Slid;
    forall k | k in c ensures SlidContent(c, 0.0, 0.0)[k] == c[k] {
      SlidNothing(c[k]);
      if c[k].List? {
        forall i | 0 <= i < |c[k].items| ensures SlidList(c[k].items, 0.0, 0.0)[i] == c[k].items[i] {
          SlidNothing(c[k].items[i]);
        }
        assert SlidList(c[k].items, 0.0, 0.0) == c[k].items;
      }
    }
  }

  // --------------------------------------------------- what is built and shown

  ghost predicate IsPoint(v: Json) {
    v.Obj? && "x" in v.entries && v.entries["x"].Num? && "y" in v.entries && v.entries["y"].Num?
  }

  /** Every object with two numbers `x` and `y` moves by the shift, and keeps its other
      entries; any other value stays. */
  lemma PointsSlide(v: Json, dx: real, dy: real)
    ensures !IsPoint(v) ==> Slid(v, dx, dy) == v
    ensures IsPoint(v) ==>
              var v' := Slid(v, dx, dy);
              && IsPoint(v') && v'.entries["x"].n == v.entries["x"].n + dx && v'.entries["y"].n == v.entries["y"].n + dy
              && forall k :: k != "x" && k != "y" ==> Lookup(v'.entries, k) == Lookup(v.entries, k)
  {
    assert "x"[0] != "y"[0];
  }

  /** A move slides the two ends of a line and the points of a stroke, and no other entry. */
  lemma ContentSlides(c: Dict, dx: real, dy: real)
    ensures var c' := SlidContent(c, dx, dy);
            && c'.Keys == c.Keys
            && ("from" in c ==> c'["from"] == Slid(c["from"], dx, dy))
            && ("to" in c ==> c'["to"] == Slid(c["to"], dx, dy))
            && ("points" in c && c["points"].List? ==>
                  && c'["points"].List? && |c'["points"].items| == |c["points"].items|
                  && forall i :: 0 <= i < |c["points"].items| ==> c'["points"].items[i] == Slid(c["points"].items[i], dx, dy))
            && ("points" in c && !c["points"].List? ==> c'["points"] == c["points"])
            && forall k :: k in c && k != "from" && k != "to" && k != "points" ==> c'[k] == c[k]
  {
    hide Slid;
    assert "from"[0] != "to"[0] && "from"[0] != "points"[0] && "to"[0] != "points"[0];
  }

  /** What an edit is meant to show: each named value, the content slid by as far as the
      annotation moves with the named entries over it, one version on. */
  lemma EditedIs(a: Fields, e: Edit, now: Json)
    ensures var s, s' := Project(a), Edited(a, e, now);
            && s'.id == s.id && s'.typ == s.typ && s'.createdBy == s.createdBy
            && s'.version == s.version + 1 && s'.updatedAt == now
            && s'.x == (if e.x.Some? then e.x.value else s.x) && s'.y == (if e.y.Some? then e.y.value else s.y)
            && s'.w == (if e.w.Some? then e.w.value else s.w) && s'.h == (if e.h.Some? then e.h.value else s.h)
            && s'.rotation == (if e.rotation.Some? then e.rotation.value else s.rotation)
            && s'.style == (if e.style.Some? then e.style.value else s.style)
            && s'.z == (if e.z.Some? then e.z.value else s.z)
            && s'.locked == (if e.locked.Some? then e.locked.value else s.locked)
            && forall k :: Lookup(s'.content, k) ==
                           if k in e.content then Some(e.content[k]) else Lookup(SlidContent(s.content, s'.x - s.x, s'.y - s.y), k)
  {
    hide SlidContent;
  }

  /** What a reader sees: the position before the geometry's, the geometry's size before the
      stored one, and a default for whatever is missing. */
  lemma ProjectIs(a: Fields)
    ensures var s, g := Project(a), a.geometry.GetOr(NO_GEOMETRY);
            && s.id == a.id && s.typ == a.typ && s.content == a.content
            && s.createdBy == a.createdBy && s.updatedAt == a.updatedAt
            && (if a.position.Some? && a.position.value != Spot(None, None)
                then s.x == a.position.value.x.GetOr(0.0) && s.y == a.position.value.y.GetOr(0.0)
                else s.x == g.x.GetOr(0.0) && s.y == g.y.GetOr(0.0))
            && s.w == (if g.w.Some? then g.w.value else if a.size.Some? then a.size.value.w.GetOr(0.0) else 0.0)
            && s.h == (if g.h.Some? then g.h.value else if a.size.Some? then a.size.value.h.GetOr(0.0) else 0.0)
            && s.rotation == g.rotation.GetOr(0.0) && s.style == a.style.GetOr(map[]) && s.z == a.z.GetOr(0.0)
            && s.locked == a.locked.GetOr(false) && s.version == a.version.GetOr(1)
  {
  }

  /** What a caller of the builder reads back: what was given, shapes behind everything
      else, and nothing turned, sized or locked that was not asked for. */
  lemma RequestedIs(g: NewArgs)
    ensures var s := Requested(g);
            && s.typ == Some(g.typ) && s.id == g.id && s.x == g.x && s.y == g.y && s.content == g.content && s.locked == g.locked
            && (g.w.Some? ==> s.w == g.w.value) && (g.w.None? ==> s.w == 0.0)
            && (g.h.Some? ==> s.h == g.h.value) && (g.h.None? ==> s.h == 0.0)
            && (g.rotation.Some? ==> s.rotation == g.rotation.value) && (g.rotation.None? ==> s.rotation == 0.0)
            && (g.z.Some? ==> s.z == g.z.value) && (g.z.None? ==> s.z == if g.typ == "shape" then -1.0 else 0.0)
            && (g.style.Some? ==> s.style == g.style.value) && (g.style.None? ==> s.style == map[])
            && s.version == 1
  {
  }

  // ----------------------------------------------------------------- the laws

  lemma SlidTwice(v: Json, dx: real, dy: real, ex: real, ey: real)
    ensures Slid(Slid(v, dx, dy), ex, ey) == Slid(v, dx + ex, dy + ey)
  {
    if PointLike(v) {
      SlidReads(v, dx, dy);
      assert Slid(Slid(v, dx, dy), ex, ey).entries == Slid(v, dx + ex, dy + ey).entries;
    }
  }

  /** A slid point has moved by exactly the shift. */
  lemma SlidReads(v: Json, dx: real, dy: real)
    requires PointLike(v)
    ensures PointLike(Slid(v, dx, dy))
    ensures Get(Slid(v, dx, dy).entries, "x").n == Get(v.entries, "x").n + dx
    ensures Get(Slid(v, dx, dy).entries, "y").n == Get(v.entries, "y").n + dy
    ensures forall k :: k != "x" && k != "y" ==> Get(Slid(v, dx, dy).entries, k) == Get(v.entries, k)
  {
    assert "x"[0] != "y"[0];
  }

  /** Moves compose: their shifts add up. */
  lemma MovesCompose(c: Dict, dx: real, dy: real, ex: real, ey: real)
    ensures SlidContent(SlidContent(c, dx, dy), ex, ey) == SlidContent(c, dx + ex, dy + ey)
  {
    hide Slid;
    forall k | k in c ensures SlidContent(SlidContent(c, dx, dy), ex, ey)[k] == SlidContent(c, dx + ex, dy + ey)[k] {
      SlidTwice(c[k], dx, dy, ex, ey);
      if c[k].List? {
        var items := c[k].items;
        forall i | 0 <= i < |items| ensures Slid(Slid(items[i], dx, dy), ex, ey) == Slid(items[i], dx + ex, dy + ey) {
          SlidTwice(items[i], dx, dy, ex, ey);
        }
        assert SlidList(SlidList(items, dx, dy), ex, ey) == SlidList(items, dx + ex, dy + ey);
      }
    }
  }

  /** The content of what two moves show is that of the direct move; and a move back
      to where it was shows the annotation as it was, but for the bookkeeping. */
  lemma MovesComposeAndReverse(a: Fields, b: Fields, c: Fields, x: real, y: real, x': real, y': real, t: Json, u: Json)
    requires Project(b) == Edited(a, NO_EDIT.(x := Some(x), y := Some(y)), t)
    requires Project(c) == Edited(b, NO_EDIT.(x := Some(x'), y := Some(y')), u)
    ensures Project(c) == Edited(a, NO_EDIT.(x := Some(x'), y := Some(y')), u).(version := Project(a).version + 2)
    ensures x' == Project(a).x && y' == Project(a).y ==>
              Project(c) == Project(a).(version := Project(a).version + 2, updatedAt := u)
  {
    hide SlidContent;
    var (dx, dy) := Shift(a, NO_EDIT.(x := Some(x), y := Some(y)));
    var (ex, ey) := Shift(b, NO_EDIT.(x := Some(x'), y := Some(y')));
    MovesCompose(a.content, dx, dy, ex, ey);
    SlidByNothing(a.content);
    assert ex == x' - x && ey == y' - y;
    assert forall m: Dict :: m + map[] == m;
  }

  /** A move is rigid: between any two coordinates of the content that are points,
      the difference stays what it was. */
  lemma MoveIsRigid(v: Json, w: Json, dx: real, dy: real)
    requires PointLike(v) && PointLike(w)
    ensures PointLike(Slid(v, dx, dy)) && PointLike(Slid(w, dx, dy))
    ensures Get(Slid(v, dx, dy).entries, "x").n - Get(Slid(w, dx, dy).entries, "x").n
            == Get(v.entries, "x").n - Get(w.entries, "x").n
    ensures Get(Slid(v, dx, dy).entries, "y").n - Get(Slid(w, dx, dy).entries, "y").n
            == Get(v.entries, "y").n - Get(w.entries, "y").n
  {
    SlidReads(v, dx, dy);
    SlidReads(w, dx, dy);
  }
}
