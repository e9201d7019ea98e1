/**
 * The hit loop shared by both games: for every pipe, every gopher still in
 * the map that touches the pipe or has left the playing field is deleted
 * from the map (game/game.go `Step`, main.go `Step`).
 */
module Collisions {
  import opened Gophers
  import opened Pipes

  /** The deletion test of the hit loop, for a field `bound` pixels high. */
  predicate Hit(p: PipeState, g: GopherState, gopherW: int, gopherH: int, bound: int)
  {
    p.Collide(g, gopherW, gopherH) || g.OffScreenY(bound, gopherH)
  }

  /** The gophers left after the inner loop for pipe `p`. */
  function PruneBy(gs: map<int, GopherState>, p: PipeState, gopherW: int, gopherH: int, bound: int): map<int, GopherState>
  {
    map k | k in gs && !Hit(p, gs[k], gopherW, gopherH, bound) :: gs[k]
  }

  /** The gophers left after the inner loops for every pipe of `ps`, in order. */
  function PruneAll(gs: map<int, GopherState>, ps: seq<PipeState>, gopherW: int, gopherH: int, bound: int): map<int, GopherState>
    decreases |ps|
  {
    if ps == [] then gs
    else PruneBy(PruneAll(gs, ps[..|ps| - 1], gopherW, gopherH, bound), ps[|ps| - 1], gopherW, gopherH, bound)
  }

  /**
   * Whatever the order of the loops, a gopher survives exactly when no pipe
   * hits it, and survivors are kept unchanged. With no pipe at all, nobody is
   * deleted, even a gopher that is off screen.
   */
  lemma {:induction false} PruneAllSurvivors(gs: map<int, GopherState>, ps: seq<PipeState>, gopherW: int, gopherH: int, bound: int)
    ensures forall k :: k in PruneAll(gs, ps, gopherW, gopherH, bound) <==>
              k in gs && forall i :: 0 <= i < |ps| ==> !Hit(ps[i], gs[k], gopherW, gopherH, bound)
    ensures forall k :: k in PruneAll(gs, ps, gopherW, gopherH, bound) ==> PruneAll(gs, ps, gopherW, gopherH, bound)[k] == gs[k]
    decreases |ps|
  {
    if ps != [] {
      var init := ps[..|ps| - 1];
      PruneAllSurvivors(gs, init, gopherW, gopherH, bound);
      forall k | k in gs
        ensures (forall i :: 0 <= i < |ps| ==> !Hit(ps[i], gs[k], gopherW, gopherH, bound)) <==>
                (forall i :: 0 <= i < |init| ==> !Hit(init[i], gs[k], gopherW, gopherH, bound)) && !Hit(ps[|ps| - 1], gs[k], gopherW, gopherH, bound)
      {
        assert forall i :: 0 <= i < |init| ==> init[i] == ps[i];
      }
    }
  }

  /** Pipes that agree on position and gap prune alike: the latches play no part. */
  predicate SameGeometry(ps: seq<PipeState>, qs: seq<PipeState>)
  {
    |ps| == |qs| && forall i :: 0 <= i < |ps| ==> qs[i].x == ps[i].x && qs[i].topY == ps[i].topY && qs[i].gap == ps[i].gap
  }

  lemma PruneAllIgnoresLatches(gs: map<int, GopherState>, ps: seq<PipeState>, qs: seq<PipeState>, gopherW: int, gopherH: int, bound: int)
    requires SameGeometry(ps, qs)
    ensures PruneAll(gs, ps, gopherW, gopherH, bound) == PruneAll(gs, qs, gopherW, gopherH, bound)
  {
    PruneAllSurvivors(gs, ps, gopherW, gopherH, bound);
    PruneAllSurvivors(gs, qs, gopherW, gopherH, bound);
    forall k | k in gs
      ensures k in PruneAll(gs, ps, gopherW, gopherH, bound) <==> k in PruneAll(gs, qs, gopherW, gopherH, bound)
    {
      assert forall i :: 0 <= i < |ps| ==> (Hit(ps[i], gs[k], gopherW, gopherH, bound) <==> Hit(qs[i], gs[k], gopherW, gopherH, bound));
    }
    var a, b := PruneAll(gs, ps, gopherW, gopherH, bound), PruneAll(gs, qs, gopherW, gopherH, bound);
    assert forall k :: k in a <==> k in b;
    assert forall k :: k in a ==> a[k] == b[k];
  }

  lemma PruneByPrefix(gs: map<int, GopherState>, ps: seq<PipeState>, i: nat, gopherW: int, gopherH: int, bound: int)
    requires i < |ps|
    ensures PruneAll(gs, ps[..i + 1], gopherW, gopherH, bound) ==
            PruneBy(PruneAll(gs, ps[..i], gopherW, gopherH, bound), ps[i], gopherW, gopherH, bound)
  {
    assert ps[..i + 1][..i] == ps[..i];
  }
}
