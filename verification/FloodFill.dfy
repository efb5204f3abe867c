/** `backgroundOf`: the border of a sticker, marked from the edge of the picture inwards. */
module FloodFill {
  datatype Pixel = Pixel(r: nat, g: nat, b: nat, a: nat)

  type Place = (int, int)

  /** A picture: its pixels row by row. */
  datatype Picture = Picture(width: nat, height: nat, pixels: seq<Pixel>) {
    predicate Valid() {
      |pixels| == width * height
    }

    predicate Inside(p: Place) {
      0 <= p.0 < width && 0 <= p.1 < height
    }

    function Index(p: Place): int {
      p.1 * width + p.0
    }

    lemma IndexInRange(p: Place)
      requires Inside(p)
      ensures 0 <= Index(p) < width * height
    {
      assert p.1 * width <= (height - 1) * width by {
        Times(p.1, height - 1, width);
      }
      assert (height - 1) * width + width == width * height;
    }

    /** The place of a pixel in the array. */
    function At(p: Place): (i: nat)
      requires Inside(p)
      ensures i < width * height && i == Index(p)
    {
      IndexInRange(p);
      Index(p)
    }

    lemma LowerRow(p: Place, q: Place)
      requires Inside(p) && Inside(q) && p.1 < q.1
      ensures Index(p) < Index(q)
    {
      Times(p.1 + 1, q.1, width);
      assert (p.1 + 1) * width == p.1 * width + width;
    }

    lemma IndexIsUnique(p: Place, q: Place)
      requires Inside(p) && Inside(q) && Index(p) == Index(q)
      ensures p == q
    {
      if p.1 < q.1 {
        LowerRow(p, q);
      } else if q.1 < p.1 {
        LowerRow(q, p);
      }
    }

    static lemma Times(a: int, b: int, w: nat)
      requires a <= b
      ensures a * w <= b * w
    {
    }

    /** Transparent or near white. */
    predicate IsWhite(p: Place)
      requires Valid() && Inside(p)
    {
      IndexInRange(p);
      var px := pixels[Index(p)];
      px.a < 200 || (px.r > 225 && px.g > 225 && px.b > 225)
    }

    predicate White(p: Place)
      requires Valid()
    {
      Inside(p) && IsWhite(p)
    }

    predicate OnEdge(p: Place) {
      Inside(p) && (p.0 == 0 || p.1 == 0 || p.0 == width - 1 || p.1 == height - 1)
    }
  }

  predicate Next(p: Place, q: Place) {
    q == (p.0 - 1, p.1) || q == (p.0 + 1, p.1) || q == (p.0, p.1 - 1) || q == (p.0, p.1 + 1)
  }

  /** White pixels, each beside the one before, from the edge on. */
  predicate Way(pic: Picture, way: seq<Place>)
    requires pic.Valid()
  {
    && way != [] && pic.OnEdge(way[0])
    && (forall k :: 0 <= k < |way| ==> pic.White(way[k]))
    && (forall k :: 0 < k < |way| ==> Next(way[k - 1], way[k]))
  }

  ghost predicate Reached(pic: Picture, p: Place)
    requires pic.Valid()
  {
    exists way :: Way(pic, way) && way[|way| - 1] == p
  }

  lemma EdgeIsReached(pic: Picture, p: Place)
    requires pic.Valid() && pic.OnEdge(p) && pic.White(p)
    ensures Reached(pic, p)
  {
    assert Way(pic, [p]) && [p][|[p]| - 1] == p;
  }

  lemma NextIsReached(pic: Picture, p: Place, q: Place)
    requires pic.Valid() && Reached(pic, p) && Next(p, q) && pic.White(q)
    ensures Reached(pic, q)
  {
    var way :| Way(pic, way) && way[|way| - 1] == p;
    var more := way + [q];
    assert Way(pic, more) && more[|more| - 1] == q;
  }

  /** A set of places that holds the white ones of the edge, and of its own the white ones beside them, holds everything that is reached. */
  lemma {:induction false} ClosedHoldsAll(pic: Picture, marked: set<Place>, way: seq<Place>)
    requires pic.Valid() && Way(pic, way)
    requires forall p :: pic.OnEdge(p) && pic.White(p) ==> p in marked
    requires forall p, q :: p in marked && Next(p, q) && pic.White(q) ==> q in marked
    ensures way[|way| - 1] in marked
    decreases |way|
  {
    var n := |way| - 1;
    if n > 0 {
      ClosedHoldsAll(pic, marked, way[..n]);
      assert Next(way[n - 1], way[n]);
    }
  }

  function Places(pic: Picture): set<Place> {
    set x, y | 0 <= x < pic.width && 0 <= y < pic.height :: (x, y)
  }

  /** What was marked was reached, and what is pending is on the edge or beside it. */
  ghost predicate Sound(pic: Picture, marked: set<Place>, pending: seq<Place>)
    requires pic.Valid()
  {
    && marked <= Places(pic)
    && (forall p :: p in marked ==> Reached(pic, p))
    && (forall k :: 0 <= k < |pending| && pic.White(pending[k]) ==> Reached(pic, pending[k]))
  }

  /** The white places of the edge, and those beside what was marked, are marked or pending. */
  ghost predicate Complete(pic: Picture, marked: set<Place>, pending: seq<Place>)
    requires pic.Valid()
  {
    && (forall p :: pic.OnEdge(p) && pic.White(p) ==> p in marked || p in pending)
    && (forall p, q :: p in marked && Next(p, q) && pic.White(q) ==> q in marked || q in pending)
  }

  function Beside(p: Place): seq<Place> {
    [(p.0 - 1, p.1), (p.0 + 1, p.1), (p.0, p.1 - 1), (p.0, p.1 + 1)]
  }

  /** The last of what is pending is not to be marked, or is marked. */
  lemma Dropped(pic: Picture, marked: set<Place>, pending: seq<Place>)
    requires pic.Valid() && pending != [] && Sound(pic, marked, pending) && Complete(pic, marked, pending)
    requires var p := pending[|pending| - 1]; !pic.White(p) || p in marked
    ensures Sound(pic, marked, pending[..|pending| - 1]) && Complete(pic, marked, pending[..|pending| - 1])
  {
    var rest, p := pending[..|pending| - 1], pending[|pending| - 1];
    assert pending == rest + [p];
    assert forall q :: q in pending ==> q in rest || q == p;
  }

  lemma Marked(pic: Picture, marked: set<Place>, pending: seq<Place>)
    requires pic.Valid() && pending != [] && Sound(pic, marked, pending) && Complete(pic, marked, pending)
    requires pic.White(pending[|pending| - 1])
    ensures var p := pending[|pending| - 1];
            var rest := pending[..|pending| - 1] + Beside(p);
            Sound(pic, marked + {p}, rest) && Complete(pic, marked + {p}, rest)
  {
    var p := pending[|pending| - 1];
    var rest := pending[..|pending| - 1] + Beside(p);
    assert pending == pending[..|pending| - 1] + [p];
    assert forall q :: q in pending ==> q in rest || q == p;
    forall q | Next(p, q)
      ensures q in rest
    {
      assert q in Beside(p);
    }
    forall k | 0 <= k < |rest| && pic.White(rest[k])
      ensures Reached(pic, rest[k])
    {
      if k < |pending| - 1 {
        assert rest[k] == pending[k];
      } else {
        assert rest[k] == Beside(p)[k - (|pending| - 1)];
        NextIsReached(pic, p, rest[k]);
      }
    }
  }

  /** The places that the marking starts from: the edge, some of it twice. */
  method Edge(pic: Picture) returns (pending: seq<Place>)
    requires pic.Valid()
    ensures forall p :: pic.OnEdge(p) ==> p in pending
    ensures forall k :: 0 <= k < |pending| && pic.Inside(pending[k]) ==> pic.OnEdge(pending[k])
  {
    pending := [];
    for x := 0 to pic.width
      invariant forall i :: 0 <= i < x ==> (i, 0) in pending && (i, pic.height - 1) in pending
      invariant forall k :: 0 <= k < |pending| && pic.Inside(pending[k]) ==> pic.OnEdge(pending[k])
    {
      pending := pending + [(x, 0), (x, pic.height - 1)];
    }
    for y := 0 to pic.height
      invariant forall i :: 0 <= i < pic.width ==> (i, 0) in pending && (i, pic.height - 1) in pending
      invariant forall i :: 0 <= i < y ==> (0, i) in pending && (pic.width - 1, i) in pending
      invariant forall k :: 0 <= k < |pending| && pic.Inside(pending[k]) ==> pic.OnEdge(pending[k])
    {
      pending := pending + [(0, y), (pic.width - 1, y)];
    }
    forall p | pic.OnEdge(p)
      ensures p in pending
    {
      assert p == (p.0, p.1);
      assert (p.0, 0) in pending && (p.0, pic.height - 1) in pending && (0, p.1) in pending && (pic.width - 1, p.1) in pending;
    }
  }

  /** What the array says. */
  ghost predicate Shows(pic: Picture, background: array<bool>, marked: set<Place>)
    requires pic.Valid() && background.Length == pic.width * pic.height
    reads background
  {
    forall p :: pic.Inside(p) ==> background[pic.At(p)] == (p in marked)
  }

  /** What is pending first is the edge. */
  lemma Begins(pic: Picture, pending: seq<Place>)
    requires pic.Valid()
    requires forall p :: pic.OnEdge(p) ==> p in pending
    requires forall k :: 0 <= k < |pending| && pic.Inside(pending[k]) ==> pic.OnEdge(pending[k])
    ensures Sound(pic, {}, pending) && Complete(pic, {}, pending)
  {
    forall k | 0 <= k < |pending| && pic.White(pending[k])
      ensures Reached(pic, pending[k])
    {
      EdgeIsReached(pic, pending[k]);
    }
  }

  lemma FewerLeft(all: set<Place>, marked: set<Place>, p: Place)
    requires p in all && p !in marked
    ensures |all - (marked + {p})| < |all - marked|
  {
    assert all - marked == (all - (marked + {p})) + {p};
  }

  method MarkOne(pic: Picture, background: array<bool>, ghost marked: set<Place>, p: Place)
    requires pic.Valid() && background.Length == pic.width * pic.height && Shows(pic, background, marked) && pic.Inside(p)
    modifies background
    ensures Shows(pic, background, marked + {p})
  {
    pic.IndexInRange(p);
    background[pic.Index(p)] := true;
    forall q | pic.Inside(q)
      ensures pic.Index(q) == pic.Index(p) ==> q == p
    {
      if pic.Index(q) == pic.Index(p) {
        pic.IndexIsUnique(p, q);
      }
    }
  }

  /** How far the marking has come. */
  ghost predicate Marking(pic: Picture, background: array<bool>, marked: set<Place>, pending: seq<Place>)
    requires pic.Valid() && background.Length == pic.width * pic.height
    reads background
  {
    Sound(pic, marked, pending) && Complete(pic, marked, pending) && Shows(pic, background, marked)
  }

  /** The last of what is pending: passed over, or marked with its neighbours pending behind it. */
  method Visit(pic: Picture, background: array<bool>, ghost marked: set<Place>, pending: seq<Place>)
    returns (left: seq<Place>, ghost more: set<Place>)
    requires pic.Valid() && background.Length == pic.width * pic.height && pending != []
    requires Marking(pic, background, marked, pending)
    modifies background
    ensures Marking(pic, background, more, left)
    ensures |Places(pic) - more| < |Places(pic) - marked| || (more == marked && |left| < |pending|)
  {
    var p := pending[|pending| - 1];
    left, more := pending[..|pending| - 1], marked;
    if !pic.Inside(p) {
      Dropped(pic, marked, pending);
      return;
    }
    pic.IndexInRange(p);
    if background[pic.Index(p)] || !pic.IsWhite(p) {
      Dropped(pic, marked, pending);
      return;
    }
    Marked(pic, marked, pending);
    assert p == (p.0, p.1);
    FewerLeft(Places(pic), marked, p);
    MarkOne(pic, background, marked, p);
    left, more := left + Beside(p), marked + {p};
  }

  /** Nothing is pending: what is marked is what is reached. */
  lemma MarkedIsReached(pic: Picture, marked: set<Place>, p: Place)
    requires pic.Valid() && Sound(pic, marked, []) && Complete(pic, marked, [])
    ensures p in marked <==> Reached(pic, p)
  {
    if Reached(pic, p) {
      var way :| Way(pic, way) && way[|way| - 1] == p;
      ClosedHoldsAll(pic, marked, way);
    }
  }

  method Blank(pic: Picture) returns (background: array<bool>)
    requires pic.Valid()
    ensures fresh(background) && background.Length == pic.width * pic.height && Shows(pic, background, {})
  {
    background := new bool[|pic.pixels|](i => false);
    forall p | pic.Inside(p)
      ensures 0 <= pic.Index(p) < |pic.pixels|
    {
      pic.IndexInRange(p);
    }
  }

  /** Marks exactly the white pixels that are connected to the edge through white pixels; the stack grows and shrinks, and a pixel is marked once. */
  method BackgroundOf(pic: Picture) returns (background: array<bool>)
    requires pic.Valid()
    ensures background.Length == pic.width * pic.height
    ensures forall p :: pic.Inside(p) ==> (background[pic.At(p)] <==> Reached(pic, p))
  {
    background := Blank(pic);
    ghost var marked: set<Place> := {};
    var pending := Edge(pic);
    Begins(pic, pending);
    while pending != []
      invariant background.Length == pic.width * pic.height && fresh(background)
      invariant Marking(pic, background, marked, pending)
      decreases |Places(pic) - marked|, |pending|
    {
      pending, marked := Visit(pic, background, marked, pending);
    }
    forall p | pic.Inside(p)
      ensures p in marked <==> Reached(pic, p)
    {
      MarkedIsReached(pic, marked, p);
    }
  }
}
