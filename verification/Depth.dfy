// The nesting limit of source documents: an explicit stack against the recursive depth.
module Depth {

  // A parsed document: only objects and arrays nest.
  datatype Document = Scalar | Object(values: seq<Document>) | Array(items: seq<Document>)

  function Children(d: Document): (c: seq<Document>)
    ensures forall i | 0 <= i < |c| :: c[i] < d
  {
    match d
    case Scalar => []
    case Object(values) => values
    case Array(items) => items
  }

  function Nesting(d: Document): (n: nat)
    ensures n >= 1
    decreases d
  {
    match d
    case Scalar => 1
    case Object(values) => 1 + Deepest(values)
    case Array(items) => 1 + Deepest(items)
  }

  function Deepest(ds: seq<Document>): nat
    decreases ds
  {
    if ds == [] then 0
    else
      var first, rest := Nesting(ds[0]), Deepest(ds[1..]);
      if first > rest then first else rest
  }

  function Size(d: Document): (n: nat)
    ensures n >= 1
    decreases d
  {
    match d
    case Scalar => 1
    case Object(values) => 1 + Sizes(values)
    case Array(items) => 1 + Sizes(items)
  }

  function Sizes(ds: seq<Document>): nat
    decreases ds
  {
    if ds == [] then 0 else Size(ds[0]) + Sizes(ds[1..])
  }

  datatype Frame = Frame(document: Document, depth: nat)

  function Work(stack: seq<Frame>): nat {
    if stack == [] then 0 else Work(stack[..|stack| - 1]) + Size(stack[|stack| - 1].document)
  }

  // Below every frame of the stack there is room for its document.
  ghost predicate Fits(f: Frame, maximum: int) {
    f.depth + Nesting(f.document) <= maximum + 1
  }

  ghost predicate AllFit(stack: seq<Frame>, maximum: int) {
    forall i | 0 <= i < |stack| :: Fits(stack[i], maximum)
  }

  function Frames(ds: seq<Document>, depth: nat): seq<Frame> {
    seq(|ds|, i requires 0 <= i < |ds| => Frame(ds[i], depth))
  }

  lemma {:induction false} WorkOfFrames(stack: seq<Frame>, ds: seq<Document>, depth: nat)
    ensures Work(stack + Frames(ds, depth)) == Work(stack) + Sizes(ds)
    decreases |ds|
  {
    if ds == [] {
      assert stack + Frames(ds, depth) == stack;
    } else {
      var pushed := stack + [Frame(ds[0], depth)];
      assert stack + Frames(ds, depth) == pushed + Frames(ds[1..], depth);
      WorkOfFrames(pushed, ds[1..], depth);
      assert pushed[..|pushed| - 1] == stack;
    }
  }

  lemma {:induction false} DeepestFits(ds: seq<Document>, depth: nat, maximum: int)
    ensures (forall i | 0 <= i < |ds| :: Fits(Frame(ds[i], depth), maximum)) <==>
            (ds == [] || depth + Deepest(ds) <= maximum + 1)
    decreases |ds|
  {
    if ds != [] {
      DeepestFits(ds[1..], depth, maximum);
      assert (forall i | 0 <= i < |ds| :: Fits(Frame(ds[i], depth), maximum)) <==>
             Fits(Frame(ds[0], depth), maximum) &&
             forall i | 0 <= i < |ds[1..]| :: Fits(Frame(ds[1..][i], depth), maximum) by {
        assert forall i | 0 <= i < |ds[1..]| :: ds[1..][i] == ds[i + 1];
        assert forall i | 1 <= i < |ds| :: ds[i] == ds[1..][i - 1];
      }
    }
  }

  // A frame whose depth is within the limit fits exactly when its children's frames do.
  lemma FrameFits(d: Document, depth: nat, maximum: int)
    requires depth <= maximum
    ensures Fits(Frame(d, depth), maximum) <==> AllFit(Frames(Children(d), depth + 1), maximum)
  {
    var ds, frames := Children(d), Frames(Children(d), depth + 1);
    DeepestFits(ds, depth + 1, maximum);
    assert Nesting(d) == 1 + Deepest(ds);
    if AllFit(frames, maximum) {
      forall i | 0 <= i < |ds| ensures Fits(Frame(ds[i], depth + 1), maximum) {
        assert Fits(frames[i], maximum);
      }
    }
    if forall i | 0 <= i < |ds| :: Fits(Frame(ds[i], depth + 1), maximum) {
      forall i | 0 <= i < |frames| ensures Fits(frames[i], maximum) {
        assert Fits(Frame(ds[i], depth + 1), maximum);
      }
    }
  }

  lemma AllFitAppend(below: seq<Frame>, frames: seq<Frame>, maximum: int)
    ensures AllFit(below + frames, maximum) <==> AllFit(below, maximum) && AllFit(frames, maximum)
  {
    var all := below + frames;
    assert forall i | 0 <= i < |below| :: all[i] == below[i];
    assert forall i | 0 <= i < |frames| :: all[|below| + i] == frames[i];
  }

  // Replacing the top frame by its children's changes neither whether all fit nor, but for the
  // frame itself, the work that is left.
  lemma ReplaceTop(below: seq<Frame>, top: Frame, maximum: int)
    requires top.depth <= maximum
    ensures var next := below + Frames(Children(top.document), top.depth + 1);
      && (AllFit(next, maximum) <==> AllFit(below + [top], maximum))
      && Work(next) < Work(below + [top])
  {
    var frames := Frames(Children(top.document), top.depth + 1);
    FrameFits(top.document, top.depth, maximum);
    AllFitAppend(below, frames, maximum);
    AllFitAppend(below, [top], maximum);
    WorkOfFrames(below, Children(top.document), top.depth + 1);
    var all := below + [top];
    assert all[..|all| - 1] == below;
    assert Work(all) == Work(below) + Size(top.document);
    assert Size(top.document) == 1 + Sizes(Children(top.document));
  }

  // The traversal refuses a document exactly when it nests more deeply than allowed.
  method EnforceJsonDepth(value: Document, maximum: int) returns (ok: bool)
    ensures ok <==> Nesting(value) <= maximum
  {
    var stack := [Frame(value, 1)];
    while stack != []
      invariant AllFit(stack, maximum) <==> Nesting(value) <= maximum
      decreases Work(stack)
    {
      var top := stack[|stack| - 1];
      var below := stack[..|stack| - 1];
      if top.depth > maximum {
        assert !Fits(top, maximum);
        return false;
      }
      assert stack == below + [top];
      ReplaceTop(below, top, maximum);
      if top.document.Object? {
        stack := below + Frames(top.document.values, top.depth + 1);
      } else if top.document.Array? {
        stack := below + Frames(top.document.items, top.depth + 1);
      } else {
        assert below + Frames([], top.depth + 1) == below;
        stack := below;
      }
    }
    return true;
  }
}
