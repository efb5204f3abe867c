/** `resolve`, `relative`, `dirname` and `basename`, and how they undo one another. */
module PathResolve {
  import opened Common
  import opened Paths

  /** `trim_end_matches('/')`. */
  function Trim(s: string): string {
    if s != [] && s[|s| - 1] == SLASH then Trim(s[..|s| - 1]) else s
  }

  function Full(base: string, path: string): string {
    if path == "" then base else if Starts(path) then path else base + "/" + path
  }

  function Resolve(base: string, path: string): string {
    var trimmed := Trim(Join(Full(base, path), ""));
    if trimmed == "" then "/" else trimmed
  }

  /** The absolute path of segments that name something. */
  function TextOf(kept: seq<string>): string {
    if kept == [] then "/" else "/" + Joined(kept)
  }

  lemma TrimRendered(kept: seq<string>, trailing: bool)
    requires AllPlain(kept)
    ensures Trim(Rendered(kept, true, trailing)) == if kept == [] then "" else TextOf(kept)
  {
    if kept == [] {
      assert "/"[..0] == "" && Trim("") == "";
    } else {
      JoinedBegins(kept);
      var body := Joined(kept);
      assert ("/" + body + "/")[..|body| + 1] == "/" + body;
    }
  }

  /** An absolute path resolves to the segments it names, with no dots, no empty segment and no slash at the end. */
  lemma ResolveIs(base: string, path: string)
    requires Starts(base)
    ensures Starts(Full(base, path)) && AllPlain(Normal(Full(base, path), true))
    ensures Resolve(base, path) == TextOf(Normal(Full(base, path), true))
  {
    var full := Full(base, path);
    assert Starts(full) by {
      assert path != "" && !Starts(path) ==> full[0] == base[0];
    }
    SplitHasNoSlash(full);
    NormalIsPlain(Split(full));
    TrimRendered(Normal(full, true), Ends(full));
  }

  lemma TextIsNormal(kept: seq<string>)
    requires AllPlain(kept)
    ensures Starts(TextOf(kept)) && Normal(TextOf(kept), true) == kept
  {
    if kept == [] {
      EmptyRendered(true);
    } else {
      PlainIsKept([], kept, true);
      assert [] + kept == kept;
      BodyReadsBack(kept, true);
      assert "/" + Joined(kept) == [SLASH] + Joined(kept);
    }
  }

  /** What was resolved stays as it is, from wherever it is resolved. */
  lemma ResolveIsIdempotent(base: string, path: string, other: string)
    requires Starts(base) && Starts(other)
    ensures Resolve(other, Resolve(base, path)) == Resolve(base, path)
  {
    ResolveIs(base, path);
    var kept := Normal(Full(base, path), true);
    TextIsNormal(kept);
    ResolveIs(other, TextOf(kept));
  }

  // ---- relative ----

  /** The segments that are not empty. */
  function Below(segments: seq<string>): seq<string> {
    if segments == [] then []
    else Below(segments[..|segments| - 1]) + (if segments[|segments| - 1] == "" then [] else [segments[|segments| - 1]])
  }

  /** How many segments two paths have in common from the front. */
  function Shared(a: seq<string>, b: seq<string>): (n: nat)
    ensures n <= |a| && n <= |b| && a[..n] == b[..n]
    ensures n < |a| && n < |b| ==> a[n] != b[n]
  {
    if a == [] || b == [] || a[0] != b[0] then 0
    else
      var n := 1 + Shared(a[1..], b[1..]);
      assert a[..n] == [a[0]] + a[1..][..n - 1] && b[..n] == [b[0]] + b[1..][..n - 1];
      n
  }

  /** Up to what is common, and down from there. */
  function Way(a: seq<string>, b: seq<string>): seq<string> {
    Dots(|a| - Shared(a, b)) + b[Shared(a, b)..]
  }

  function Relative(from: string, to: string): string {
    Joined(Way(Below(Split(Resolve("/", from))), Below(Split(Resolve("/", to)))))
  }

  lemma {:induction false} BelowPlain(kept: seq<string>)
    requires AllPlain(kept)
    ensures Below(kept) == kept && Below([""] + kept) == kept
  {
    if kept == [] {
      assert [""] + kept == [""] && [""][..0] == [];
    } else {
      var n := |kept| - 1;
      BelowPlain(kept[..n]);
      assert kept == kept[..n] + [kept[n]];
      assert ([""] + kept)[..n + 1] == [""] + kept[..n];
    }
  }

  lemma SegmentsOf(path: string)
    requires Starts(path)
    ensures AllPlain(Normal(path, true)) && Below(Split(Resolve("/", path))) == Normal(path, true)
  {
    ResolveIs("/", path);
    var kept := Normal(path, true);
    BelowPlain(kept);
    if kept == [] {
      assert "/" == "" + [SLASH] + "";
      SplitConcat("", "");
      assert Split("/") == ["", ""] && ["", ""][..1] == [""] && [""][..0] == [];
    } else {
      SplitJoined(kept);
      BehindSlash(Joined(kept));
      assert "/" + Joined(kept) == [SLASH] + Joined(kept);
    }
  }

  lemma WayGoes(from: string, b: seq<string>)
    requires AllPlain(Normal(from, true)) && AllPlain(b)
    ensures PushAll([], Split(from) + Way(Normal(from, true), b), true) == b
  {
    var a := Normal(from, true);
    PushAllConcat([], Split(from), Way(a, b), true);
    ClimbAndFall(a, b, Shared(a, b));
  }

  lemma Climbed(a: seq<string>, b: seq<string>, n: nat)
    requires AllPlain(a) && n <= |a| && n <= |b| && a[..n] == b[..n]
    ensures PushAll(a, Dots(|a| - n), true) == b[..n]
  {
    DotsTakeOff(a, |a| - n);
    assert |a| - (|a| - n) == n;
  }

  lemma Fallen(b: seq<string>, n: nat)
    requires AllPlain(b) && n <= |b|
    ensures PushAll(b[..n], b[n..], true) == b
  {
    PlainIsKept(b[..n], b[n..], true);
    Halves(b, n);
  }

  lemma ClimbAndFall(a: seq<string>, b: seq<string>, n: nat)
    requires AllPlain(a) && AllPlain(b) && n <= |a| && n <= |b| && a[..n] == b[..n]
    ensures PushAll(a, Dots(|a| - n) + b[n..], true) == b
  {
    PushAllConcat(a, Dots(|a| - n), b[n..], true);
    Climbed(a, b, n);
    Fallen(b, n);
  }

  lemma Halves(b: seq<string>, n: nat)
    requires n <= |b|
    ensures b[..n] + b[n..] == b
  {
  }

  /** A way of segments, taken from an absolute path. */
  lemma WayLeads(from: string, way: seq<string>)
    requires Starts(from) && NoSlashes(way) && forall k :: 0 <= k < |way| ==> way[k] != ""
    ensures Resolve(from, Joined(way)) == TextOf(PushAll([], Split(from) + way, true))
  {
    ResolveIs(from, Joined(way));
    if way == [] {
      assert Split(from) + way == Split(from);
    } else {
      JoinedBegins(way);
      SplitJoined(way);
      SplitConcat(from, Joined(way));
    }
  }

  /** The relative path from one to the other leads there. */
  lemma RelativeLeadsThere(from: string, to: string)
    requires Starts(from) && Starts(to)
    ensures Resolve(from, Relative(from, to)) == Resolve("/", to)
  {
    SegmentsOf(from);
    SegmentsOf(to);
    var way := Way(Normal(from, true), Normal(to, true));
    assert Relative(from, to) == Joined(way);
    WayIsClean(Normal(from, true), Normal(to, true));
    WayLeads(from, way);
    WayGoes(from, Normal(to, true));
    ResolveIs("/", to);
  }

  lemma WayIsClean(a: seq<string>, b: seq<string>)
    requires AllPlain(b)
    ensures NoSlashes(Way(a, b)) && forall k :: 0 <= k < |Way(a, b)| ==> Way(a, b)[k] != ""
  {
  }

  // ---- dirname and basename ----

  /** The last slash in front of the last segment, looked for from the end; whether only slashes were passed so far. */
  function DirEnd(p: string, i: nat, slashes: bool): Option<nat>
    requires i < |p|
    decreases i
  {
    if i == 0 then None
    else if p[i] != SLASH then DirEnd(p, i - 1, false)
    else if !slashes then Some(i)
    else DirEnd(p, i - 1, slashes)
  }

  function Dirname(p: string): string {
    if p == "" then "."
    else
      match DirEnd(p, |p| - 1, true)
      case None => if p[0] == SLASH then "/" else "."
      case Some(end) => if end == 1 && p[0] == SLASH then "//" else if end <= |p| then p[..end] else p
  }

  function Basename(p: string): string {
    var segments := Split(Trim(p));
    segments[|segments| - 1]
  }

  lemma {:induction false} DirEndOf(before: string, name: string, i: nat)
    requires NoSlash(name) && |before| < i + 1 <= |before| + 1 + |name| && before != ""
    ensures DirEnd(before + [SLASH] + name, i, false) == Some(|before|)
    decreases i
  {
    var p := before + [SLASH] + name;
    if i > |before| {
      assert p[i] == name[i - |before| - 1];
      assert p[i] in name;
      DirEndOf(before, name, i - 1);
    }
  }

  lemma {:induction false} NoDirEnd(name: string, i: nat, slashes: bool)
    requires NoSlash(name) && i <= |name|
    ensures DirEnd([SLASH] + name, i, slashes) == None
    decreases i
  {
    if i > 0 {
      assert ([SLASH] + name)[i] == name[i - 1];
      assert name[i - 1] in name;
      NoDirEnd(name, i - 1, false);
    }
  }

  /** The directory and the name of a resolved path make it up again. */
  lemma DirectoryAndName(kept: seq<string>)
    requires AllPlain(kept) && kept != []
    ensures Dirname(TextOf(kept)) == TextOf(kept[..|kept| - 1]) && Basename(TextOf(kept)) == kept[|kept| - 1]
    ensures Resolve(Dirname(TextOf(kept)), Basename(TextOf(kept))) == TextOf(kept)
  {
    var init, name := kept[..|kept| - 1], kept[|kept| - 1];
    assert kept == init + [name];
    assert name[|name| - 1] in name && name[0] in name;
    LastSegment(kept);
    DirnameOfText(init, name);
    TextIsNormal(init);
    ResolveIs(TextOf(init), name);
    SplitOne(name);
    SplitConcat(TextOf(init), name);
    assert TextOf(init) + "/" + name == TextOf(init) + [SLASH] + name;
    PushAllConcat([], Split(TextOf(init)), [name], true);
    PlainIsKept(init, [name], true);
  }

  lemma LastSegment(kept: seq<string>)
    requires AllPlain(kept) && kept != []
    ensures Basename(TextOf(kept)) == kept[|kept| - 1]
  {
    JoinedBegins(kept);
    SplitJoined(kept);
    BehindSlash(Joined(kept));
    NotTrimmed([SLASH] + Joined(kept));
    assert TextOf(kept) == [SLASH] + Joined(kept);
    assert ([""] + kept)[|kept|] == kept[|kept| - 1];
  }

  lemma NotTrimmed(s: string)
    requires s != [] && s[|s| - 1] != SLASH
    ensures Trim(s) == s
  {
  }

  lemma DirnameOfText(init: seq<string>, name: string)
    requires AllPlain(init) && Plain(name)
    ensures Dirname(TextOf(init + [name])) == TextOf(init)
  {
    var kept := init + [name];
    assert kept[..|kept| - 1] == init;
    if init == [] {
      assert kept == [name];
      NoDirEnd(name, |name|, true);
      assert TextOf(kept) == [SLASH] + name;
    } else {
      JoinedBegins(init);
      assert TextOf(kept) == TextOf(init) + [SLASH] + name;
      DirnameOfName(TextOf(init), name);
    }
  }

  lemma DirnameOfName(before: string, name: string)
    requires |before| > 1 && name != [] && NoSlash(name)
    ensures Dirname(before + [SLASH] + name) == before
  {
    var p := before + [SLASH] + name;
    assert p[|p| - 1] == name[|name| - 1];
    assert name[|name| - 1] in name;
    DirEndOf(before, name, |before| + |name|);
    DirEndFirst(p);
    assert p[..|before|] == before;
  }

  lemma DirEndFirst(p: string)
    requires |p| > 1 && p[|p| - 1] != SLASH
    ensures DirEnd(p, |p| - 1, true) == DirEnd(p, |p| - 1, false)
  {
  }
}
