// DetectCircularRefs: the references a step's params make to other steps, and a
// three-colour depth-first search over them. The search picks the next step and
// the next reference in any order, as Go's map iteration does.
module CircularRefs {
  import opened Sorting
  import opened Graph
  import Interpolation
  import Kahn

  const STEP_MARKER := "${{steps."

  // ----- Which steps a text refers to -----

  // The step id at the head of what follows the marker: up to the next dot, or
  // to the closing marker if that comes first.
  ghost function ReferencedId(rest: string, close: int): string
    requires 0 <= close <= |rest|
  {
    var dot := Interpolation.Find(rest, ".");
    Interpolation.TrimSpace(if dot != -1 && dot < close then rest[..dot] else rest[..close])
  }

  ghost function StepRefs(s: string): set<string>
    decreases |s|
  {
    var idx := Interpolation.Find(s, STEP_MARKER);
    if idx == -1 then {}
    else
      var rest := s[idx + 9..];
      var close := Interpolation.Find(rest, "}}");
      if close == -1 then {}
      else
        var id := ReferencedId(rest, close);
        (if id != "" then {id} else {}) + StepRefs(rest[close + 2..])
  }

  method ExtractStepRefs(text: string) returns (refs: set<string>)
    ensures refs == StepRefs(text)
  {
    refs := {};
    var s := text;
    while true
      invariant refs + StepRefs(s) == StepRefs(text)
      decreases |s|
    {
      var idx := Interpolation.Index(s, STEP_MARKER);
      if idx == -1 {
        break;
      }
      var rest := s[idx + 9..];
      var dot := Interpolation.Index(rest, ".");
      var close := Interpolation.Index(rest, "}}");
      if close == -1 {
        break;
      }
      var id := if dot != -1 && dot < close then rest[..dot] else rest[..close];
      id := Interpolation.TrimSpace(id);
      if id != "" {
        refs := refs + {id};
      }
      s := rest[close + 2..];
    }
  }

  // ----- The search -----

  datatype Color = White | Gray | Black

  type Coloring = map<string, Color>

  function ColorIn(color: Coloring, id: string): Color {
    if id in color then color[id] else White
  }

  // The gray steps form a walk, outermost first; the black steps, in the order
  // they turned black, come after everything they refer to.
  ghost predicate DfsState(refs: Digraph<string>, color: Coloring, path: seq<string>, finished: seq<string>) {
    && (forall x {:trigger ColoredRight(color, path, finished, x)} :: ColoredRight(color, path, finished, x))
    && (path == [] || IsWalk(refs, path))
    && Topological(refs, finished)
  }

  ghost predicate ColoredRight(color: Coloring, path: seq<string>, finished: seq<string>, x: string) {
    && (x in path <==> ColorIn(color, x) == Gray)
    && (x in finished <==> ColorIn(color, x) == Black)
    && (x in color <==> ColorIn(color, x) != White)
  }

  lemma TurnGray(refs: Digraph<string>, color: Coloring, path: seq<string>, finished: seq<string>, id: string)
    requires DfsState(refs, color, path, finished) && ColorIn(color, id) == White
    requires path != [] ==> id in Targets(refs, path[|path| - 1])
    ensures DfsState(refs, color[id := Gray], path + [id], finished) && id !in color
  {
    if path != [] {
      ExtendWalk(refs, path, id);
    }
    var color', path' := color[id := Gray], path + [id];
    forall x ensures ColoredRight(color', path', finished, x) {
      assert ColoredRight(color, path, finished, x);
    }
    assert ColoredRight(color, path, finished, id);
  }

  lemma TurnBlack(refs: Digraph<string>, color: Coloring, path: seq<string>, finished: seq<string>, id: string)
    requires DfsState(refs, color, path + [id], finished) && id !in path
    requires forall t :: t in Targets(refs, id) ==> t in finished
    ensures DfsState(refs, color[id := Black], path, finished + [id])
  {
    assert ColoredRight(color, path + [id], finished, id);
    forall t | t in Targets(refs, id) ensures t in Elems(finished) {}
    Kahn.TopologicalExtends(refs, finished, id);
    if path != [] {
      SubwalkIsWalk(refs, path + [id], 0, |path|);
      assert (path + [id])[0..|path|] == path;
    }
    var color', finished' := color[id := Black], finished + [id];
    forall x ensures ColoredRight(color', path, finished', x) {
      assert ColoredRight(color, path + [id], finished, x);
    }
  }

  // An edge to a gray step closes a cycle.
  lemma BackEdgeIsCycle(refs: Digraph<string>, color: Coloring, path: seq<string>, finished: seq<string>, dep: string)
    requires DfsState(refs, color, path, finished) && path != [] && dep in Targets(refs, path[|path| - 1])
    requires ColorIn(color, dep) == Gray
    ensures HasCycle(refs)
  {
    assert ColoredRight(color, path, finished, dep);
    var k :| 0 <= k < |path| && path[k] == dep;
    SubwalkIsWalk(refs, path, k, |path|);
    var c := path[k..|path|];
    ExtendWalk(refs, c, dep);
    assert IsCycle(refs, c + [dep]);
  }

  // Every step the search can come to.
  ghost function Universe(refs: Digraph<string>): set<string> {
    refs.Keys + set n, t | n in refs && t in refs[n] :: t
  }

  class CycleFinder {
    const refs: Digraph<string>
    var color: Coloring
    ghost var path: seq<string>
    ghost var finished: seq<string>

    constructor (refs: Digraph<string>)
      ensures Valid() && this.refs == refs && path == [] && finished == []
    {
      this.refs := refs;
      color, path, finished := map[], [], [];
    }

    ghost predicate Valid()
      reads this
    {
      DfsState(refs, color, path, finished)
    }

    method Visit(id: string) returns (circular: bool)
      requires Valid() && ColorIn(color, id) == White && id in Universe(refs)
      requires path != [] ==> id in Targets(refs, path[|path| - 1])
      modifies this
      ensures circular ==> HasCycle(refs)
      ensures !circular ==> Valid() && path == old(path) && id in finished
      ensures !circular ==> Elems(old(finished)) <= Elems(finished) && old(color.Keys) <= color.Keys
      decreases Universe(refs) - color.Keys
    {
      TurnGray(refs, color, path, finished, id);
      assert ColoredRight(color, path, finished, id);
      color := color[id := Gray];
      path := path + [id];
      var todo := if id in refs then refs[id] else {};
      while todo != {}
        invariant todo <= Targets(refs, id)
        invariant Valid() && path == old(path) + [id] && Elems(old(finished)) <= Elems(finished)
        invariant old(color.Keys) + {id} <= color.Keys
        invariant Targets(refs, id) - todo <= Elems(finished)
      {
        var dep :| dep in todo;
        assert ColoredRight(color, path, finished, dep);
        match ColorIn(color, dep) {
          case Gray =>
            BackEdgeIsCycle(refs, color, path, finished, dep);
            return true;
          case White =>
            var inner := Visit(dep);
            if inner {
              return true;
            }
          case Black =>
        }
        todo := todo - {dep};
      }
      forall t | t in Targets(refs, id) ensures t in finished {
        assert t in Elems(finished);
      }
      TurnBlack(refs, color, old(path), finished, id);
      color := color[id := Black];
      path := old(path);
      finished := finished + [id];
      return false;
    }

    // The search from every step that has references.
    method Search() returns (circular: bool)
      requires Valid() && path == [] && finished == []
      modifies this
      ensures circular <==> HasCycle(refs)
    {
      var todo := refs.Keys;
      while todo != {}
        invariant todo <= refs.Keys
        invariant Valid() && path == []
        invariant refs.Keys - todo <= Elems(finished)
      {
        var id :| id in todo;
        assert ColoredRight(color, path, finished, id);
        if ColorIn(color, id) == White {
          var inner := Visit(id);
          if inner {
            return true;
          }
        }
        todo := todo - {id};
      }
      forall n | n in refs ensures n in finished {
        assert n in Elems(finished);
      }
      TopologicalIsAcyclic(refs, finished);
      return false;
    }
  }

  // ----- DetectCircularRefs -----

  // The reference graph of a level: steps whose params refer to anything.
  ghost function RefGraph(params: map<string, string>): Digraph<string> {
    map id | id in params && StepRefs(params[id]) != {} :: StepRefs(params[id])
  }

  // An error is returned exactly when the references have a cycle.
  method DetectCircularRefs(params: map<string, string>) returns (circular: bool)
    ensures circular <==> HasCycle(RefGraph(params))
  {
    var refs: Digraph<string> := map[];
    var todo := params.Keys;
    while todo != {}
      invariant todo <= params.Keys
      invariant refs == map id | id in params && id !in todo && StepRefs(params[id]) != {} :: StepRefs(params[id])
    {
      var id :| id in todo;
      if |params[id]| > 0 {
        var extracted := ExtractStepRefs(params[id]);
        if extracted != {} {
          refs := refs[id := extracted];
        }
      } else {
        assert StepRefs(params[id]) == {};
      }
      todo := todo - {id};
    }
    assert refs == RefGraph(params);
    var finder := new CycleFinder(refs);
    circular := finder.Search();
  }
}
