/**
 * The ZoteTess tessellator of tess.py: the begin / vertex / end callbacks
 * that flatten the primitives a foreign OpenGL tessellator emits into one
 * flat list of vertices (three per triangle), and make_triangles.
 *
 * The foreign engine is replaced by the sequence of callback events it
 * emits; a vertex is its coordinate sequence, over an opaque coordinate type.
 */
module Tess {
  import opened Common
  import opened Primitives

  /** One callback call made by the tessellation engine. */
  datatype Event<C> = Begin(style: int) | Vertex(data: seq<C>) | End

  /** The tessellator's state between callbacks; `triangles` is the run's flat output list. */
  datatype Config<C> = Config(style: Option<int>, shape: seq<seq<C>>, triangles: seq<seq<C>>)

  /** Python's `v[0:2]`: the first two coordinates, or all of them when there are fewer. */
  function FirstTwo<C>(v: seq<C>): (r: seq<C>)
    ensures |r| == if |v| < 2 then |v| else 2
    ensures r <= v
  {
    if |v| < 2 then v else v[..2]
  }

  /** The effect of one callback; `None` when the end callback raises. */
  function Step<C>(c: Config<C>, e: Event<C>): Option<Config<C>>
  {
    match e
    case Begin(s) => Some(c.(style := Some(s)))
    case Vertex(v) => Some(c.(shape := c.shape + [FirstTwo(v)]))
    case End =>
      if Drainable(c.style, c.shape)
      then Some(Config(None, [], c.triangles + Emitted(c.style, c.shape)))
      else None
  }

  /** The state after the engine makes the callbacks `events`, in order, from `c`. */
  function Replay<C>(c: Config<C>, events: seq<Event<C>>): Option<Config<C>>
    decreases |events|
  {
    if events == [] then Some(c)
    else match Step(c, events[0])
      case None => None
      case Some(next) => Replay(next, events[1..])
  }

  /** The vertex callbacks for the payloads `vs`, in order. */
  function VertexEvents<C>(vs: seq<seq<C>>): seq<Event<C>>
  {
    if vs == [] then [] else [Vertex(vs[0])] + VertexEvents(vs[1..])
  }

  /** The accumulator entries those payloads become. */
  function Accumulated<C>(vs: seq<seq<C>>): (r: seq<seq<C>>)
    ensures |r| == |vs|
  {
    if vs == [] then [] else [FirstTwo(vs[0])] + Accumulated(vs[1..])
  }

  /** Triangles only grow over a run: what was in the output stays as a prefix. */
  lemma {:induction false} ReplayKeepsPrefix<C>(c: Config<C>, events: seq<Event<C>>)
    requires Replay(c, events).Some?
    ensures c.triangles <= Replay(c, events).value.triangles
    decreases |events|
  {
    if events != [] {
      var next := Step(c, events[0]).value;
      ReplayKeepsPrefix(next, events[1..]);
    }
  }

  /** Running two event streams one after the other is running their concatenation. */
  lemma {:induction false} ReplayAppend<C>(c: Config<C>, a: seq<Event<C>>, b: seq<Event<C>>)
    ensures Replay(c, a + b) == match Replay(c, a) case None => None case Some(d) => Replay(d, b)
    decreases |a|
  {
    if a == [] {
      assert a + b == b;
    } else {
      assert (a + b)[0] == a[0] && (a + b)[1..] == a[1..] + b;
      match Step(c, a[0])
      case None =>
      case Some(next) => ReplayAppend(next, a[1..], b);
    }
  }

  /** A run of vertex callbacks appends one accumulator entry per payload and changes nothing else. */
  lemma {:induction false} ReplayVertices<C>(c: Config<C>, vs: seq<seq<C>>)
    ensures Replay(c, VertexEvents(vs)) == Some(c.(shape := c.shape + Accumulated(vs)))
    decreases |vs|
  {
    var events := VertexEvents(vs);
    if vs == [] {
      assert c.shape + Accumulated(vs) == c.shape;
    } else {
      var next := c.(shape := c.shape + [FirstTwo(vs[0])]);
      assert events[0] == Vertex(vs[0]);
      assert Step(c, events[0]) == Some(next);
      assert events[1..] == VertexEvents(vs[1..]);
      ReplayVertices(next, vs[1..]);
      var rest := Accumulated(vs[1..]);
      assert Accumulated(vs) == [FirstTwo(vs[0])] + rest;
      assert (c.shape + [FirstTwo(vs[0])]) + rest == c.shape + ([FirstTwo(vs[0])] + rest);
    }
  }

  /**
   * One whole primitive, begin, its vertices and end, from an empty
   * accumulator: it raises exactly when a fan or strip has fewer than two
   * vertices, and otherwise appends what its style emits and resets the rest.
   */
  lemma OnePrimitive<C>(c: Config<C>, style: int, vs: seq<seq<C>>)
    requires c.shape == []
    ensures var r := Replay(c, [Begin(style)] + VertexEvents(vs) + [End]);
      if Drainable(Some(style), vs)
      then r == Some(Config(None, [], c.triangles + Emitted(Some(style), Accumulated(vs))))
      else r == None
  {
    var begun := c.(style := Some(style));
    assert Step(c, Begin(style)) == Some(begun);
    assert Replay(c, [Begin(style)]) == Some(begun);
    ReplayAppend(c, [Begin(style)], VertexEvents(vs));
    ReplayVertices(begun, vs);
    var filled := begun.(shape := Accumulated(vs));
    assert begun.shape + Accumulated(vs) == Accumulated(vs);
    ReplayAppend(c, [Begin(style)] + VertexEvents(vs), [End]);
    assert Replay(filled, [End]) == Step(filled, End);
  }

  /**
   * When the engine never opens an independent-triangle primitive, every
   * primitive adds whole triangles, so the flat list stays a multiple of three
   * long (the count the output writer divides by three).
   */
  lemma {:induction false} WholeTriangles<C>(c: Config<C>, events: seq<Event<C>>)
    requires c.style != Some(GL_TRIANGLES) && Begin(GL_TRIANGLES) !in events
    requires |c.triangles| % 3 == 0
    requires Replay(c, events).Some?
    ensures |Replay(c, events).value.triangles| % 3 == 0
    decreases |events|
  {
    if events != [] {
      var next := Step(c, events[0]).value;
      if events[0] == End {
        EmittedShape(c.style, c.shape);
      }
      assert events[1..] <= events[1..] && Begin(GL_TRIANGLES) !in events[1..] by {
        assert forall e :: e in events[1..] ==> e in events;
      }
      WholeTriangles(next, events[1..]);
    }
  }

  /** A five-vertex fan from the engine becomes the triangles (0,1,2), (0,2,3), (0,3,4). */
  lemma FanScenario()
    ensures Replay(Config(None, [], []),
                   [Begin(GL_TRIANGLE_FAN)] + VertexEvents([[0, 0, 0], [1, 1, 0], [2, 2, 0], [3, 3, 0], [4, 4, 0]]) + [End])
         == Some(Config(None, [], [[0, 0], [1, 1], [2, 2], [0, 0], [2, 2], [3, 3], [0, 0], [3, 3], [4, 4]]))
  {
    var vs := [[0, 0, 0], [1, 1, 0], [2, 2, 0], [3, 3, 0], [4, 4, 0]];
    OnePrimitive(Config(None, [], []), GL_TRIANGLE_FAN, vs);
    var acc := Accumulated(vs);
    assert [0, 0, 0][..2] == [0, 0] && [1, 1, 0][..2] == [1, 1] && [2, 2, 0][..2] == [2, 2];
    assert [3, 3, 0][..2] == [3, 3] && [4, 4, 0][..2] == [4, 4];
    assert acc == [[0, 0], [1, 1], [2, 2], [3, 3], [4, 4]];
    EmittedShape(Some(GL_TRIANGLE_FAN), acc);
    var out := Emitted(Some(GL_TRIANGLE_FAN), acc);
    assert |out| == 9;
    assert out[0..3] == [[0, 0], [1, 1], [2, 2]];
    assert out[3 * 1..3 * 1 + 3] == [[0, 0], [2, 2], [3, 3]];
    assert out[3 * 2..3 * 2 + 3] == [[0, 0], [3, 3], [4, 4]];
    assert out == out[0..3] + out[3..6] + out[6..9];
    assert out == [[0, 0], [1, 1], [2, 2], [0, 0], [2, 2], [3, 3], [0, 0], [3, 3], [4, 4]];
    assert Drainable(Some(GL_TRIANGLE_FAN), vs);
    assert [] + out == out;
  }

  /** Python's `flat[0], flat[1], flat[2]` repeated once per step of `range(0, len(flat), 3)`. */
  function FirstTripleRepeated<V>(flat: seq<V>): (r: seq<seq<V>>)
    requires |flat| >= 3
  {
    seq((|flat| + 2) / 3, _ => flat[..3])
  }

  /** The evident intent of make_triangles: consecutive, non-overlapping groups of three. */
  function Grouped<V>(flat: seq<V>): (r: seq<seq<V>>)
    requires |flat| % 3 == 0
    decreases |flat|
  {
    if flat == [] then [] else Grouped(flat[..|flat| - 3]) + [flat[|flat| - 3..]]
  }

  /** Grouping gives one group per three inputs; group i is inputs 3i, 3i+1, 3i+2. */
  lemma {:induction false} GroupedAt<V>(flat: seq<V>)
    requires |flat| % 3 == 0
    ensures |Grouped(flat)| == |flat| / 3
    ensures forall i :: 0 <= i < |flat| / 3 ==> Grouped(flat)[i] == flat[3 * i..3 * i + 3]
    decreases |flat|
  {
    if flat != [] {
      var init := flat[..|flat| - 3];
      GroupedAt(init);
      var g := Grouped(flat);
      assert g == Grouped(init) + [flat[|flat| - 3..]];
      forall i | 0 <= i < |flat| / 3
        ensures g[i] == flat[3 * i..3 * i + 3]
      {
        if i < |init| / 3 {
          assert g[i] == Grouped(init)[i];
          assert flat[3 * i..3 * i + 3] == init[3 * i..3 * i + 3];
        } else {
          assert i == |init| / 3;
        }
      }
    }
  }

  /** Grouping into threes and flattening again gives back the input. */
  lemma {:induction false} GroupedRoundTrip<V>(flat: seq<V>)
    requires |flat| % 3 == 0
    ensures Flatten(Grouped(flat)) == flat
    decreases |flat|
  {
    if flat != [] {
      var init := flat[..|flat| - 3];
      GroupedRoundTrip(init);
      FlattenSnoc(Grouped(init), flat[|flat| - 3..]);
      assert init + flat[|flat| - 3..] == flat;
    }
  }

  /**
   * make_triangles as written hands back the first triple over and over, so
   * from any input whose second triple differs from the first, flattening
   * its result does not give the input back, nor is it the grouping.
   */
  lemma FirstTripleRepeatedLosesInput<V>(flat: seq<V>)
    requires |flat| >= 6 && flat[3..6] != flat[..3]
    ensures Flatten(FirstTripleRepeated(flat)) != flat
    ensures |flat| % 3 == 0 ==> FirstTripleRepeated(flat) != Grouped(flat)
  {
    var r := FirstTripleRepeated(flat);
    assert r[..2] == [flat[..3], flat[..3]];
    FlattenSnoc([flat[..3]], flat[..3]);
    FlattenSnoc([], flat[..3]);
    assert [flat[..3]] == [] + [flat[..3]];
    assert r[..2] == [flat[..3]] + [flat[..3]];
    assert Flatten(r[..2]) == flat[..3] + flat[..3];
    FlattenAppend(r[..2], r[2..]);
    assert r[..2] + r[2..] == r;
    assert Flatten(r)[3..6] == flat[..3];
    if |flat| % 3 == 0 {
      GroupedAt(flat);
      assert Grouped(flat)[1] == flat[3..6];
    }
  }

  /** A tessellator object; the fields are the ones the callbacks share. */
  class ZoteTess<C> {
    /** The primitive code of the open primitive; `None` once a primitive has ended. */
    var tessStyle: Option<int>
    /** The vertices accumulated since the last end callback. */
    var currentShape: seq<seq<C>>
    /** The flat output list of the current run (a local that the callbacks capture in tess.py). */
    var triangles: seq<seq<C>>

    /** The state of its four fields as one value. */
    function State(): Config<C>
      reads this
    {
      Config(tessStyle, currentShape, triangles)
    }

    constructor ()
      ensures tessStyle == Some(0) && currentShape == [] && triangles == []
    {
      tessStyle := Some(0);
      currentShape := [];
      triangles := [];
    }

    /** `cb_vert`: appends the vertex's first two coordinates to the accumulator. */
    method CbVert(v: seq<C>)
      modifies this
      ensures currentShape == old(currentShape) + [FirstTwo(v)]
      ensures tessStyle == old(tessStyle) && triangles == old(triangles)
      ensures Some(State()) == Step(old(State()), Vertex(v))
    {
      currentShape := currentShape + [FirstTwo(v)];
    }

    /** `cb_begin`: records the primitive code. */
    method CbBegin(style: int)
      modifies this
      ensures tessStyle == Some(style)
      ensures currentShape == old(currentShape) && triangles == old(triangles)
      ensures Some(State()) == Step(old(State()), Begin(style))
    {
      tessStyle := Some(style);
    }

    /** `list.pop(0)` on the accumulator. */
    method PopFront() returns (v: seq<C>)
      requires currentShape != []
      modifies this`currentShape
      ensures v == old(currentShape)[0] && currentShape == old(currentShape)[1..]
    {
      v := currentShape[0];
      currentShape := currentShape[1..];
    }

    /**
     * `cb_end`: drains the accumulator from the front into the output list
     * according to the primitive code, then resets the code and the
     * accumulator. Earlier output is left as it was.
     */
    method CbEnd()
      requires Drainable(tessStyle, currentShape)
      modifies this
      ensures triangles == old(triangles) + Emitted(old(tessStyle), old(currentShape))
      ensures tessStyle == None && currentShape == []
      ensures old(triangles) <= triangles
      ensures Some(State()) == Step(old(State()), End)
    {
      ghost var target := triangles + Emitted(tessStyle, currentShape);
      if tessStyle == Some(GL_TRIANGLE_FAN) {
        var c := PopFront();
        var p1 := PopFront();
        assert old(currentShape)[1..] == [p1] + currentShape;
        while currentShape != []
          invariant target == triangles + FanTriples(c, [p1] + currentShape)
          decreases |currentShape|
        {
          var p2 := PopFront();
          assert ([p1] + ([p2] + currentShape))[1..] == [p2] + currentShape;
          triangles := triangles + [c, p1, p2];
          p1 := p2;
        }
      } else if tessStyle == Some(GL_TRIANGLE_STRIP) {
        var p1 := PopFront();
        var p2 := PopFront();
        assert old(currentShape) == [p1, p2] + currentShape;
        while currentShape != []
          invariant target == triangles + StripTriples([p1, p2] + currentShape)
          decreases |currentShape|
        {
          ghost var window := [p1, p2] + currentShape;
          var p3 := PopFront();
          assert window[..3] == [p1, p2, p3];
          assert window[1..] == [p2, p3] + currentShape;
          assert StripTriples(window) == [p1, p2, p3] + StripTriples([p2, p3] + currentShape);
          triangles := triangles + [p1, p2, p3];
          p1 := p2;
          p2 := p3;
        }
      } else if tessStyle == Some(GL_TRIANGLES) {
        triangles := triangles + currentShape;
      } else {
        // An unknown primitive code is reported on standard output; nothing is emitted.
      }
      tessStyle := None;
      currentShape := [];
    }

    /**
     * `triangulate`: starts from an empty accumulator and a fresh output list
     * (the primitive code is kept from before), makes the engine's callbacks
     * in order and returns the output list; `None` when an end callback
     * raises on a fan or strip with fewer than two vertices.
     */
    method Triangulate(events: seq<Event<C>>) returns (r: Option<seq<seq<C>>>)
      modifies this
      ensures var final := Replay(Config(old(tessStyle), [], []), events);
        && (r.Some? <==> final.Some?)
        && (r.Some? ==> r.value == final.value.triangles && State() == final.value)
    {
      triangles := [];
      currentShape := [];
      var i := 0;
      while i < |events|
        invariant 0 <= i <= |events|
        invariant Replay(Config(old(tessStyle), [], []), events) == Replay(State(), events[i..])
        decreases |events| - i
      {
        assert events[i..][0] == events[i] && events[i..][1..] == events[i + 1..];
        match events[i] {
          case Begin(s) =>
            CbBegin(s);
          case Vertex(v) =>
            CbVert(v);
          case End =>
            if !Drainable(tessStyle, currentShape) {
              return None;
            }
            CbEnd();
        }
        i := i + 1;
      }
      r := Some(triangles);
    }

    /**
     * `make_triangles` as written: one sub-list per step of
     * `range(0, len(flat), 3)`, each holding `flat[0], flat[1], flat[2]`;
     * `None` when a non-empty input has fewer than three entries (IndexError).
     */
    method MakeTriangles<V>(flat: seq<V>) returns (r: Option<seq<seq<V>>>)
      ensures r.Some? <==> |flat| == 0 || |flat| >= 3
      ensures r.Some? ==> |r.value| == (|flat| + 2) / 3
      ensures r.Some? ==> forall k :: 0 <= k < |r.value| ==> r.value[k] == [flat[0], flat[1], flat[2]]
      ensures |flat| >= 3 ==> r == Some(FirstTripleRepeated(flat))
    {
      var ret: seq<seq<V>> := [];
      var i := 0;
      while i < |flat|
        invariant i == 3 * |ret| && i <= |flat| + 2
        invariant i > 0 ==> |flat| >= 3
        invariant forall k :: 0 <= k < |ret| ==> |flat| >= 3 && ret[k] == flat[..3]
      {
        if |flat| < 3 {
          return None;
        }
        ret := ret + [flat[..3]];
        i := i + 3;
      }
      assert |ret| == (|flat| + 2) / 3;
      assert |flat| >= 3 ==> ret == FirstTripleRepeated(flat);
      r := Some(ret);
    }

    /**
     * `make_triangles` as its documentation describes it: sub-list k holds
     * `flat[3k], flat[3k+1], flat[3k+2]`; `None` when a trailing partial
     * group would index past the end.
     */
    method MakeTrianglesIntended<V>(flat: seq<V>) returns (r: Option<seq<seq<V>>>)
      ensures r.Some? <==> |flat| % 3 == 0
      ensures r.Some? ==> r.value == Grouped(flat) && Flatten(r.value) == flat
    {
      var ret: seq<seq<V>> := [];
      var i := 0;
      while i < |flat|
        invariant 0 <= i <= |flat| && i % 3 == 0
        invariant ret == Grouped(flat[..i])
      {
        if i + 2 >= |flat| {
          return None;
        }
        assert flat[..i + 3][..i] == flat[..i] && flat[..i + 3][i..] == [flat[i], flat[i + 1], flat[i + 2]];
        ret := ret + [[flat[i], flat[i + 1], flat[i + 2]]];
        i := i + 3;
      }
      assert flat[..i] == flat;
      GroupedRoundTrip(flat);
      r := Some(ret);
    }
  }
}
