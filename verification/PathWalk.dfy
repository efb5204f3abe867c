/** The loops over paths: the stack of `join`, the scan of `dirname`, and `realpath`, which follows links a component at a time. */
module PathWalk {
  import opened Common
  import opened Paths
  import opened PathResolve

  const MAX_LINKS: nat := 32

  datatype Node = Entry | Link(target: string)

  /** The nodes of the disk by the names on the way to them; what is not there cannot be read. */
  type Files = map<seq<string>, Node>

  datatype Real = Found(kept: seq<string>) | Missing(path: string) | TooManyLinks

  /** The components left to walk, from a place that was reached, with so many links followed. */
  function Onward(from: string, target: string, rest: seq<string>): seq<string> {
    Normal(Full(from, target), true) + rest
  }

  /** One component further. */
  function Further(reached: seq<string>, part: string): seq<string> {
    if reached == [] then [part] else reached + [part]
  }

  function Walk(fs: Files, reached: seq<string>, pending: seq<string>, links: nat): Real
    requires links <= MAX_LINKS
    decreases MAX_LINKS - links, |pending|
  {
    if pending == [] then Found(reached)
    else
      var here := Further(reached, pending[0]);
      if here !in fs then Missing(TextOf(here))
      else
        match fs[here]
        case Entry => Walk(fs, here, pending[1..], links)
        case Link(target) =>
          if links == MAX_LINKS then TooManyLinks
          else Walk(fs, [], Onward(TextOf(reached), target, pending[1..]), links + 1)
  }

  function RealPath(fs: Files, path: string): Real {
    Walk(fs, [], Normal(Full("/", path), true), 0)
  }

  /** Everything up to there is on the disk and is no link. */
  predicate OnDisk(fs: Files, kept: seq<string>) {
    kept == [] || (OnDisk(fs, kept[..|kept| - 1]) && kept in fs && fs[kept].Entry?)
  }

  predicate Resolved(fs: Files, kept: seq<string>) {
    AllPlain(kept) && OnDisk(fs, kept)
  }

  lemma {:induction false} OnDiskUpTo(fs: Files, kept: seq<string>, k: nat)
    requires OnDisk(fs, kept) && 0 < k <= |kept|
    ensures kept[..k] in fs && fs[kept[..k]].Entry?
  {
    if k < |kept| {
      OnDiskUpTo(fs, kept[..|kept| - 1], k);
      assert kept[..|kept| - 1][..k] == kept[..k];
    } else {
      assert kept[..k] == kept;
    }
  }

  lemma OneFurther(fs: Files, reached: seq<string>, part: string)
    requires Resolved(fs, reached) && Plain(part) && Further(reached, part) in fs && fs[Further(reached, part)].Entry?
    ensures Resolved(fs, Further(reached, part))
  {
    assert reached != [] ==> (reached + [part])[..|reached|] == reached;
  }

  lemma TargetIsPlain(reached: seq<string>, target: string, rest: seq<string>)
    requires AllPlain(reached) && AllPlain(rest)
    ensures AllPlain(Onward(TextOf(reached), target, rest))
  {
    TextIsNormal(reached);
    ResolveIs(TextOf(reached), target);
  }

  lemma PastEntry(fs: Files, reached: seq<string>, pending: seq<string>, links: nat)
    requires links <= MAX_LINKS && Resolved(fs, reached) && AllPlain(pending) && pending != []
    requires var here := Further(reached, pending[0]); here in fs && fs[here].Entry?
    ensures Resolved(fs, Further(reached, pending[0])) && AllPlain(pending[1..])
    ensures Walk(fs, reached, pending, links) == Walk(fs, Further(reached, pending[0]), pending[1..], links)
  {
    OneFurther(fs, reached, pending[0]);
  }

  lemma PastLink(fs: Files, reached: seq<string>, pending: seq<string>, links: nat)
    requires links < MAX_LINKS && Resolved(fs, reached) && AllPlain(pending) && pending != []
    requires var here := Further(reached, pending[0]); here in fs && fs[here].Link?
    ensures var onward := Onward(TextOf(reached), fs[Further(reached, pending[0])].target, pending[1..]);
            AllPlain(onward) && Walk(fs, reached, pending, links) == Walk(fs, [], onward, links + 1)
  {
    TargetIsPlain(reached, fs[Further(reached, pending[0])].target, pending[1..]);
  }

  lemma NoneReached(fs: Files)
    ensures Resolved(fs, [])
  {
  }

  /** No link is left in what is found. */
  lemma {:induction false} NoLinkIsLeft(fs: Files, reached: seq<string>, pending: seq<string>, links: nat)
    requires links <= MAX_LINKS && Resolved(fs, reached) && AllPlain(pending)
    ensures Walk(fs, reached, pending, links).Found? ==> Resolved(fs, Walk(fs, reached, pending, links).kept)
    decreases MAX_LINKS - links, |pending|
  {
    if pending != [] {
      var here := Further(reached, pending[0]);
      if here in fs && fs[here].Entry? {
        PastEntry(fs, reached, pending, links);
        NoLinkIsLeft(fs, Further(reached, pending[0]), pending[1..], links);
      } else if here in fs && links < MAX_LINKS {
        PastLink(fs, reached, pending, links);
        NoneReached(fs);
        NoLinkIsLeft(fs, [], Onward(TextOf(reached), fs[here].target, pending[1..]), links + 1);
      }
    }
  }

  lemma WalkOn(fs: Files, reached: seq<string>, part: string, rest: seq<string>, links: nat)
    requires links <= MAX_LINKS
    requires var here := Further(reached, part); here in fs && fs[here].Entry?
    ensures Walk(fs, reached, [part] + rest, links) == Walk(fs, Further(reached, part), rest, links)
  {
    assert ([part] + rest)[1..] == rest;
  }

  /** A path without links is its own. */
  lemma {:induction false} WithoutLinks(fs: Files, kept: seq<string>, k: nat, links: nat)
    requires OnDisk(fs, kept) && k <= |kept| && links <= MAX_LINKS
    ensures Walk(fs, kept[..k], kept[k..], links) == Found(kept)
    decreases |kept| - k
  {
    if k == |kept| {
      assert kept[..k] == kept && kept[k..] == [];
    } else {
      OnDiskUpTo(fs, kept, k + 1);
      assert Further(kept[..k], kept[k]) == kept[..k + 1];
      assert kept[k..] == [kept[k]] + kept[k + 1..];
      WithoutLinks(fs, kept, k + 1, links);
      WalkOn(fs, kept[..k], kept[k], kept[k + 1..], links);
    }
  }

  /** The real path is a path on the disk with no link in it, and it is the real path of itself. */
  lemma RealPathIsReal(fs: Files, path: string)
    requires RealPath(fs, path).Found?
    ensures var kept := RealPath(fs, path).kept;
            Resolved(fs, kept) && RealPath(fs, TextOf(kept)) == Found(kept)
  {
    ResolveIs("/", path);
    NoLinkIsLeft(fs, [], Normal(Full("/", path), true), 0);
    var kept := RealPath(fs, path).kept;
    TextIsNormal(kept);
    WithoutLinks(fs, kept, 0, 0);
    assert kept[..0] == [] && kept[0..] == kept;
  }

  /** A path that has no link in it is only normalised. */
  lemma NormalPathIsReal(fs: Files, path: string)
    requires Starts(path) && Resolved(fs, Normal(path, true))
    ensures RealPath(fs, path) == Found(Normal(path, true)) && TextOf(Normal(path, true)) == Resolve("/", path)
  {
    var kept := Normal(path, true);
    ResolveIs("/", path);
    WithoutLinks(fs, kept, 0, 0);
    assert kept[..0] == [] && kept[0..] == kept;
  }

  // ---- the loops ----

  method SplitPath(s: string) returns (segments: seq<string>)
    ensures segments == Split(s)
  {
    segments := [""];
    for k := 0 to |s|
      invariant segments == Split(s[..k])
    {
      assert s[..k + 1] == s[..k] + [s[k]];
      SplitSnoc(s[..k], s[k]);
      segments := Extend(segments, s[k]);
    }
    assert s[..|s|] == s;
  }

  lemma PushOneMore(segments: seq<string>, k: nat, absolute: bool)
    requires k < |segments|
    ensures PushAll([], segments[..k + 1], absolute) == Push(PushAll([], segments[..k], absolute), segments[k], absolute)
  {
    assert segments[..k + 1][..k] == segments[..k];
  }

  /** `join`: the segments pushed onto a stack and popped from it. */
  method JoinPath(base: string, name: string) returns (path: string)
    ensures path == Join(base, name)
  {
    var joined := if base == "" then name else if name == "" then base else base + "/" + name;
    if joined == "" {
      return ".";
    }
    var absolute, trailing := joined[0] == SLASH, joined[|joined| - 1] == SLASH;
    var segments := SplitPath(joined);
    var kept: seq<string> := [];
    for k := 0 to |segments|
      invariant kept == PushAll([], segments[..k], absolute)
    {
      PushOneMore(segments, k, absolute);
      var segment := segments[k];
      if segment == "" || segment == "." {
      } else if segment == ".." && kept != [] && kept[|kept| - 1] != ".." {
        kept := kept[..|kept| - 1];
      } else if segment == ".." && absolute {
      } else {
        kept := kept + [segment];
      }
    }
    assert segments[..|segments|] == segments;
    path := Rendered(kept, absolute, trailing);
  }

  /** `dirname`: the scan from the end. */
  method DirnameOf(p: string) returns (dir: string)
    ensures dir == Dirname(p)
  {
    if p == "" {
      return ".";
    }
    var slashes := true;
    var end: Option<nat> := None;
    var i: nat := |p| - 1;
    while i > 0
      invariant i < |p| && end.None?
      invariant DirEnd(p, |p| - 1, true) == DirEnd(p, i, slashes)
      decreases i
    {
      if p[i] != SLASH {
        slashes := false;
      } else if !slashes {
        end := Some(i);
        break;
      }
      i := i - 1;
    }
    match end
    case None => dir := if p[0] == SLASH then "/" else ".";
    case Some(e) => dir := if e == 1 && p[0] == SLASH then "//" else p[..e];
  }

  /** The text that `realpath` builds up, which is empty at the root. */
  function RealText(kept: seq<string>): string {
    if kept == [] then "" else TextOf(kept)
  }

  lemma HereText(kept: seq<string>, part: string)
    ensures RealText(kept) + "/" + part == TextOf(Further(kept, part))
  {
    if kept != [] {
      assert (kept + [part])[..|kept|] == kept;
    }
  }

  /** A walk under way: the text that was reached, its segments, what is left, and the links followed. */
  datatype Trail = Trail(text: string, segments: seq<string>, pending: seq<string>, links: nat)

  predicate OnTrail(fs: Files, t: Trail, path: string) {
    t.links <= MAX_LINKS && t.text == RealText(t.segments) && Walk(fs, t.segments, t.pending, t.links) == RealPath(fs, path)
  }

  /** One component: looked at on the disk, and followed when it is a link, whose target goes on top of what is left to walk. */
  method Follow(fs: Files, t: Trail, path: string) returns (next: Option<Trail>)
    requires OnTrail(fs, t, path) && t.pending != []
    ensures next.None? ==> !RealPath(fs, path).Found?
    ensures next.Some? ==>
              && OnTrail(fs, next.value, path)
              && (next.value.links > t.links || (next.value.links == t.links && |next.value.pending| < |t.pending|))
  {
    var here := Further(t.segments, t.pending[0]);
    if here !in fs {
      return None;
    }
    match fs[here]
    case Entry =>
      HereText(t.segments, t.pending[0]);
      next := Some(Trail(t.text + "/" + t.pending[0], here, t.pending[1..], t.links));
    case Link(target) =>
      if t.links == MAX_LINKS {
        return None;
      }
      next := Some(Trail("", [], Onward(if t.text == "" then "/" else t.text, target, t.pending[1..]), t.links + 1));
  }

  /** `realpath`: it ends because the links are counted, and between two of them the components. */
  method RealPathOf(fs: Files, path: string) returns (reached: string, found: bool)
    ensures found == RealPath(fs, path).Found?
    ensures found ==> reached == TextOf(RealPath(fs, path).kept)
  {
    var t := Trail("", [], Normal(Full("/", path), true), 0);
    while t.pending != []
      invariant OnTrail(fs, t, path)
      decreases MAX_LINKS - t.links, |t.pending|
    {
      var next := Follow(fs, t, path);
      if next.None? {
        return t.text, false;
      }
      t := next.value;
    }
    found := true;
    reached := if t.text == "" then "/" else t.text;
  }
}
