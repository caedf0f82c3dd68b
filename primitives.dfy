/**
 * What the end-of-primitive callback of tess.py appends to the flat output
 * list for each OpenGL primitive kind, as functions of the vertices the
 * primitive accumulated, and the count and order facts about them.
 */
module Primitives {
  import opened Common

  /** Primitive codes an OpenGL tessellator passes to its begin callback. */
  const GL_TRIANGLES: int := 0x0004
  const GL_TRIANGLE_STRIP: int := 0x0005
  const GL_TRIANGLE_FAN: int := 0x0006

  /** For a fan with centre `c` and rim `[p1, ..., pm]`: `c, pj, pj+1` for each consecutive rim pair. */
  function FanTriples<V>(c: V, rim: seq<V>): seq<V>
    decreases |rim|
  {
    if |rim| < 2 then [] else [c, rim[0], rim[1]] + FanTriples(c, rim[1..])
  }

  /** For a strip `[p1, ..., pn]`: `pj, pj+1, pj+2` for each window of three. */
  function StripTriples<V>(ps: seq<V>): seq<V>
    decreases |ps|
  {
    if |ps| < 3 then [] else ps[..3] + StripTriples(ps[1..])
  }

  /**
   * The end callback can drain the accumulator: a fan or a strip pops two
   * vertices before its loop, which raises on a shorter list.
   */
  predicate Drainable<V>(style: Option<int>, shape: seq<V>)
  {
    style == Some(GL_TRIANGLE_FAN) || style == Some(GL_TRIANGLE_STRIP) ==> |shape| >= 2
  }

  /** What the end callback appends for `style` and accumulator `shape` (tess.py:99-118). */
  function Emitted<V>(style: Option<int>, shape: seq<V>): seq<V>
    requires Drainable(style, shape)
  {
    if style == Some(GL_TRIANGLE_FAN) then FanTriples(shape[0], shape[1..])
    else if style == Some(GL_TRIANGLE_STRIP) then StripTriples(shape)
    else if style == Some(GL_TRIANGLES) then shape
    else []
  }

  /** A fan's rim of m >= 1 vertices gives m - 1 triangles; triangle j is (c, pj, pj+1). */
  lemma {:induction false} FanTriplesShape<V>(c: V, rim: seq<V>)
    requires |rim| >= 1
    ensures |FanTriples(c, rim)| == 3 * (|rim| - 1)
    ensures forall j :: 0 <= j < |rim| - 1 ==> FanTriples(c, rim)[3 * j..3 * j + 3] == [c, rim[j], rim[j + 1]]
    decreases |rim|
  {
    if |rim| >= 2 {
      var rest := FanTriples(c, rim[1..]);
      FanTriplesShape(c, rim[1..]);
      assert FanTriples(c, rim) == [c, rim[0], rim[1]] + rest;
      forall j | 0 <= j < |rim| - 1
        ensures FanTriples(c, rim)[3 * j..3 * j + 3] == [c, rim[j], rim[j + 1]]
      {
        if j > 0 {
          assert FanTriples(c, rim)[3 * j..3 * j + 3] == rest[3 * (j - 1)..3 * (j - 1) + 3];
          assert rim[1..][j - 1] == rim[j] && rim[1..][j] == rim[j + 1];
        }
      }
    }
  }

  /** A strip of n >= 2 vertices gives n - 2 triangles; triangle j is (pj, pj+1, pj+2). */
  lemma {:induction false} StripTriplesShape<V>(ps: seq<V>)
    requires |ps| >= 2
    ensures |StripTriples(ps)| == 3 * (|ps| - 2)
    ensures forall j :: 0 <= j < |ps| - 2 ==> StripTriples(ps)[3 * j..3 * j + 3] == [ps[j], ps[j + 1], ps[j + 2]]
    decreases |ps|
  {
    if |ps| >= 3 {
      var rest := StripTriples(ps[1..]);
      StripTriplesShape(ps[1..]);
      assert StripTriples(ps) == ps[..3] + rest;
      forall j | 0 <= j < |ps| - 2
        ensures StripTriples(ps)[3 * j..3 * j + 3] == [ps[j], ps[j + 1], ps[j + 2]]
      {
        if j > 0 {
          assert StripTriples(ps)[3 * j..3 * j + 3] == rest[3 * (j - 1)..3 * (j - 1) + 3];
          assert ps[1..][j - 1] == ps[j] && ps[1..][j] == ps[j + 1] && ps[1..][j + 1] == ps[j + 2];
        }
      }
    }
  }

  /**
   * Count and order of what one primitive adds, for every style: a fan or a
   * strip of k accumulated vertices adds 3 * (k - 2) entries, triple j being
   * (c, pj, pj+1) for a fan and (pj, pj+1, pj+2) for a strip; an independent
   * triangle list adds its accumulator verbatim, trailing partial group
   * included; any other style adds nothing.
   */
  lemma EmittedShape<V>(style: Option<int>, shape: seq<V>)
    requires Drainable(style, shape)
    ensures style == Some(GL_TRIANGLE_FAN) ==>
      && |Emitted(style, shape)| == 3 * (|shape| - 2)
      && forall j :: 0 <= j < |shape| - 2 ==>
           Emitted(style, shape)[3 * j..3 * j + 3] == [shape[0], shape[j + 1], shape[j + 2]]
    ensures style == Some(GL_TRIANGLE_STRIP) ==>
      && |Emitted(style, shape)| == 3 * (|shape| - 2)
      && forall j :: 0 <= j < |shape| - 2 ==>
           Emitted(style, shape)[3 * j..3 * j + 3] == [shape[j], shape[j + 1], shape[j + 2]]
    ensures style == Some(GL_TRIANGLES) ==> Emitted(style, shape) == shape
    ensures style !in {Some(GL_TRIANGLE_FAN), Some(GL_TRIANGLE_STRIP), Some(GL_TRIANGLES)} ==> Emitted(style, shape) == []
  {
    if style == Some(GL_TRIANGLE_FAN) {
      FanTriplesShape(shape[0], shape[1..]);
      forall j | 0 <= j < |shape| - 2
        ensures Emitted(style, shape)[3 * j..3 * j + 3] == [shape[0], shape[j + 1], shape[j + 2]]
      {
        assert shape[1..][j] == shape[j + 1] && shape[1..][j + 1] == shape[j + 2];
      }
    } else if style == Some(GL_TRIANGLE_STRIP) {
      StripTriplesShape(shape);
    }
  }
}
