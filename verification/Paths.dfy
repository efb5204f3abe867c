/** Paths as text and as segments: `join`, `resolve`, `relative`, `dirname` and `basename`. */
module Paths {

  const SLASH: char := '/'

  // ---- text and segments ----

  /** One character more behind segments that were split. */
  function Extend(segments: seq<string>, c: char): (r: seq<string>)
    requires segments != []
    ensures r != []
  {
    if c == SLASH then segments + [""] else segments[..|segments| - 1] + [segments[|segments| - 1] + [c]]
  }

  /** `split('/')`: never empty. */
  function Split(s: string): (r: seq<string>)
    ensures r != []
  {
    if s == [] then [""] else Extend(Split(s[..|s| - 1]), s[|s| - 1])
  }

  /** `join("/")`. */
  function Joined(segments: seq<string>): string {
    if segments == [] then ""
    else if |segments| == 1 then segments[0]
    else Joined(segments[..|segments| - 1]) + [SLASH] + segments[|segments| - 1]
  }

  predicate NoSlash(s: string) {
    SLASH !in s
  }

  predicate NoSlashes(segments: seq<string>) {
    forall k :: 0 <= k < |segments| ==> NoSlash(segments[k])
  }

  lemma {:induction false} SplitHasNoSlash(s: string)
    ensures NoSlashes(Split(s))
  {
    if s != [] {
      SplitHasNoSlash(s[..|s| - 1]);
    }
  }

  lemma {:induction false} SplitOne(s: string)
    requires NoSlash(s)
    ensures Split(s) == [s]
  {
    if s != [] {
      var init, last := s[..|s| - 1], s[|s| - 1];
      assert s == init + [last];
      assert last in s && forall c :: c in init ==> c in s;
      SplitOne(init);
    }
  }

  lemma SplitSnoc(s: string, c: char)
    ensures Split(s + [c]) == Extend(Split(s), c)
  {
    assert (s + [c])[..|s|] == s;
  }

  lemma ExtendConcat(a: seq<string>, b: seq<string>, c: char)
    requires b != []
    ensures Extend(a + b, c) == a + Extend(b, c)
  {
    assert (a + b)[..|a + b| - 1] == a + b[..|b| - 1];
  }

  lemma Resnoc<T>(a: seq<T>, b: seq<T>)
    requires b != []
    ensures a + b == a + b[..|b| - 1] + [b[|b| - 1]]
  {
  }

  lemma {:induction false} SplitConcat(a: string, b: string)
    ensures Split(a + [SLASH] + b) == Split(a) + Split(b)
    decreases |b|
  {
    if b == [] {
      assert a + [SLASH] + b == a + [SLASH];
      SplitSnoc(a, SLASH);
    } else {
      var init, c := b[..|b| - 1], b[|b| - 1];
      SplitConcat(a, init);
      Resnoc(a + [SLASH], b);
      SplitSnoc(a + [SLASH] + init, c);
      ExtendConcat(Split(a), Split(init), c);
    }
  }

  /** Segments that were joined are split again as they were. */
  lemma {:induction false} SplitJoined(segments: seq<string>)
    requires segments != [] && NoSlashes(segments)
    ensures Split(Joined(segments)) == segments
  {
    var n := |segments| - 1;
    SplitOne(segments[n]);
    if n == 0 {
      assert segments == [segments[0]];
    } else {
      SplitJoined(segments[..n]);
      SplitConcat(Joined(segments[..n]), segments[n]);
      assert segments == segments[..n] + [segments[n]];
    }
  }

  lemma {:induction false} JoinedBegins(segments: seq<string>)
    requires segments != [] && NoSlashes(segments)
    requires forall k :: 0 <= k < |segments| ==> segments[k] != ""
    ensures Joined(segments) != "" && Joined(segments)[0] == segments[0][0] && Joined(segments)[|Joined(segments)| - 1] != SLASH
    ensures Joined(segments)[0] != SLASH
  {
    var n := |segments| - 1;
    assert segments[n][|segments[n]| - 1] in segments[n];
    assert segments[0][0] in segments[0];
    if n > 0 {
      JoinedBegins(segments[..n]);
    }
  }

  // ---- the normal form ----

  /** A segment that names something. */
  predicate Plain(s: string) {
    s != "" && s != "." && s != ".." && NoSlash(s)
  }

  predicate AllPlain(segments: seq<string>) {
    forall k :: 0 <= k < |segments| ==> Plain(segments[k])
  }

  /** Segments that climb, and then segments that name something. */
  predicate Climbs(segments: seq<string>, ups: nat) {
    ups <= |segments| && forall k :: 0 <= k < |segments| ==> if k < ups then segments[k] == ".." else Plain(segments[k])
  }

  /** One segment more on the stack of those that are kept. */
  function Push(kept: seq<string>, segment: string, absolute: bool): seq<string> {
    if segment == "" || segment == "." then kept
    else if segment == ".." && kept != [] && kept[|kept| - 1] != ".." then kept[..|kept| - 1]
    else if segment == ".." && absolute then kept
    else kept + [segment]
  }

  function PushAll(kept: seq<string>, segments: seq<string>, absolute: bool): seq<string> {
    if segments == [] then kept
    else Push(PushAll(kept, segments[..|segments| - 1], absolute), segments[|segments| - 1], absolute)
  }

  function Normal(s: string, absolute: bool): seq<string> {
    PushAll([], Split(s), absolute)
  }

  lemma {:induction false} PushAllConcat(kept: seq<string>, a: seq<string>, b: seq<string>, absolute: bool)
    ensures PushAll(kept, a + b, absolute) == PushAll(PushAll(kept, a, absolute), b, absolute)
    decreases |b|
  {
    if b == [] {
      assert a + b == a;
    } else {
      PushAllConcat(kept, a, b[..|b| - 1], absolute);
      assert (a + b)[..|a + b| - 1] == a + b[..|b| - 1];
    }
  }

  lemma PushOne(kept: seq<string>, segment: string, absolute: bool)
    ensures PushAll(kept, [segment], absolute) == Push(kept, segment, absolute)
  {
    assert [segment][..0] == [];
  }

  /** On an absolute path nothing climbs: what is kept names something. */
  lemma {:induction false} NormalIsPlain(segments: seq<string>)
    requires NoSlashes(segments)
    ensures AllPlain(PushAll([], segments, true))
  {
    if segments != [] {
      NormalIsPlain(segments[..|segments| - 1]);
    }
  }

  /** On a relative path what climbs comes first. */
  lemma {:induction false} NormalClimbs(segments: seq<string>) returns (ups: nat)
    requires NoSlashes(segments)
    ensures Climbs(PushAll([], segments, false), ups)
  {
    ups := 0;
    if segments != [] {
      ups := NormalClimbs(segments[..|segments| - 1]);
      var kept := PushAll([], segments[..|segments| - 1], false);
      var last := segments[|segments| - 1];
      if last == ".." && (kept == [] || kept[|kept| - 1] == "..") {
        ups := ups + 1;
      }
    }
  }

  /** Segments that name something are all kept. */
  lemma {:induction false} PlainIsKept(kept: seq<string>, segments: seq<string>, absolute: bool)
    requires AllPlain(segments)
    ensures PushAll(kept, segments, absolute) == kept + segments
  {
    if segments == [] {
      assert kept + segments == kept;
    } else {
      var n := |segments| - 1;
      PlainIsKept(kept, segments[..n], absolute);
      assert kept + segments[..n] + [segments[n]] == kept + segments;
    }
  }

  lemma {:induction false} ClimbIsKept(segments: seq<string>, ups: nat)
    requires Climbs(segments, ups)
    ensures PushAll([], segments, false) == segments
  {
    if segments != [] {
      var n := |segments| - 1;
      ClimbIsKept(segments[..n], if ups <= n then ups else n);
      assert segments == segments[..n] + [segments[n]];
    }
  }

  function Dots(n: nat): (r: seq<string>)
    ensures |r| == n && forall k :: 0 <= k < n ==> r[k] == ".."
  {
    if n == 0 then [] else Dots(n - 1) + [".."]
  }

  /** Each climb takes one segment off. */
  lemma {:induction false} DotsTakeOff(kept: seq<string>, n: nat)
    requires AllPlain(kept) && n <= |kept|
    ensures PushAll(kept, Dots(n), true) == kept[..|kept| - n]
  {
    if n == 0 {
      assert kept[..|kept|] == kept;
    } else {
      DotsTakeOff(kept, n - 1);
      assert Dots(n)[..n - 1] == Dots(n - 1);
      assert kept[..|kept| - (n - 1)][..|kept| - n] == kept[..|kept| - n];
    }
  }

  // ---- join ----

  predicate Starts(s: string) {
    s != "" && s[0] == SLASH
  }

  predicate Ends(s: string) {
    s != "" && s[|s| - 1] == SLASH
  }

  function Rendered(kept: seq<string>, absolute: bool, trailing: bool): string {
    var body := Joined(kept);
    if absolute then (if body == "" then "/" else if trailing then "/" + body + "/" else "/" + body)
    else if body == "" then (if trailing then "./" else ".")
    else if trailing then body + "/" else body
  }

  /** What `join` makes of a text that is not empty. */
  function Normalised(s: string): string {
    Rendered(Normal(s, Starts(s)), Starts(s), Ends(s))
  }

  function Join(base: string, name: string): string {
    var joined := if base == "" then name else if name == "" then base else base + "/" + name;
    if joined == "" then "." else Normalised(joined)
  }

  lemma BehindSlash(a: string)
    ensures Split([SLASH] + a) == [""] + Split(a) && Split(a + [SLASH]) == Split(a) + [""]
  {
    SplitConcat("", a);
    assert "" + [SLASH] + a == [SLASH] + a;
    SplitConcat(a, "");
    assert a + [SLASH] + "" == a + [SLASH];
  }

  lemma EmptySegments(segments: seq<string>, kept: seq<string>, absolute: bool)
    ensures PushAll(kept, [""] + segments, absolute) == PushAll(kept, segments, absolute)
    ensures PushAll(kept, segments + [""], absolute) == PushAll(kept, segments, absolute)
    ensures PushAll(kept, ["."] + segments, absolute) == PushAll(kept, segments, absolute)
  {
    PushAllConcat(kept, [""], segments, absolute);
    PushOne(kept, "", absolute);
    PushAllConcat(kept, segments, [""], absolute);
    PushOne(PushAll(kept, segments, absolute), "", absolute);
    PushAllConcat(kept, ["."], segments, absolute);
    PushOne(kept, ".", absolute);
  }

  lemma BodyReadsBack(kept: seq<string>, absolute: bool)
    requires kept != [] && NoSlashes(kept) && PushAll([], kept, absolute) == kept
    ensures var body := Joined(kept);
            && Normal(body, absolute) == kept && Normal([SLASH] + body, absolute) == kept
            && Normal(body + [SLASH], absolute) == kept && Normal([SLASH] + (body + [SLASH]), absolute) == kept
  {
    var body := Joined(kept);
    SplitJoined(kept);
    EmptySegments(kept, [], absolute);
    BehindSlash(body);
    BehindSlash(body + [SLASH]);
    EmptySegments(kept + [""], [], absolute);
  }

  /** What was kept is kept again, and the ends of the path are what they were. */
  lemma RenderedReadsBack(kept: seq<string>, absolute: bool, trailing: bool)
    requires NoSlashes(kept) && (forall k :: 0 <= k < |kept| ==> kept[k] != "") && PushAll([], kept, absolute) == kept
    ensures var s := Rendered(kept, absolute, trailing);
            s != "" && Starts(s) == absolute && Normal(s, absolute) == kept
            && (kept != [] || !absolute ==> Ends(s) == trailing)
  {
    if kept == [] {
      EmptyRendered(absolute);
    } else {
      JoinedBegins(kept);
      BodyReadsBack(kept, absolute);
      RenderedBody(kept, absolute, trailing);
    }
  }

  lemma RenderedBody(kept: seq<string>, absolute: bool, trailing: bool)
    requires Joined(kept) != "" && Joined(kept)[0] != SLASH && Joined(kept)[|Joined(kept)| - 1] != SLASH
    ensures var body, s := Joined(kept), Rendered(kept, absolute, trailing);
            && Starts(s) == absolute && Ends(s) == trailing
            && s == if absolute then (if trailing then [SLASH] + (body + [SLASH]) else [SLASH] + body)
                    else if trailing then body + [SLASH] else body
  {
    var body := Joined(kept);
    assert "/" + body + "/" == [SLASH] + (body + [SLASH]);
  }

  lemma EmptyRendered(absolute: bool)
    ensures Normal("/", absolute) == [] && Normal("./", absolute) == [] && Normal(".", absolute) == []
  {
    SplitOne("");
    SplitOne(".");
    BehindSlash("");
    assert [SLASH] + "" == "/" && "" + [SLASH] == "/" && "." + [SLASH] == "./";
    BehindSlash(".");
    EmptySegments([""], [], absolute);
    EmptySegments([], [], absolute);
    assert ["."] + [] == ["."] && [""] + [] == [""];
    EmptySegments(["."], [], absolute);
  }

  lemma NormalIsKept(s: string)
    ensures var kept := Normal(s, Starts(s));
            NoSlashes(kept) && (forall k :: 0 <= k < |kept| ==> kept[k] != "") && PushAll([], kept, Starts(s)) == kept
  {
    SplitHasNoSlash(s);
    if Starts(s) {
      NormalIsPlain(Split(s));
      PlainIsKept([], Normal(s, true), true);
      assert [] + Normal(s, true) == Normal(s, true);
    } else {
      var ups := NormalClimbs(Split(s));
      ClimbIsKept(Normal(s, false), ups);
    }
  }

  /** What `join` gives is its own normal form. */
  lemma JoinIsAFixedPoint(base: string, name: string)
    ensures Join(base, name) != "" && Join(Join(base, name), "") == Join(base, name)
  {
    var joined := if base == "" then name else if name == "" then base else base + "/" + name;
    if joined == "" {
      EmptyRendered(false);
      assert Normalised(".") == ".";
    } else {
      NormalIsKept(joined);
      RenderedReadsBack(Normal(joined, Starts(joined)), Starts(joined), Ends(joined));
    }
  }
}
