/**
 * The hierarchical tag arena of the engine (mpay/mpay.py `find_tag`,
 * `create_hierarchical_tag`, `create_tag`): a tag is addressed by the
 * "/"-separated names on the path from its root, and each path segment is
 * looked up by (name, parent).
 */
module Tags {
  import opened Common
  import opened Text
  import opened Schema
  import opened Names
  import opened Ledger

  /** Every tag name is one the tag sanitizer accepts. */
  predicate LabelNames(tags: seq<Tag>) {
    forall k :: 0 <= k < |tags| ==> IsLabel(tags[k].name)
  }

  /** The segments of a hierarchical name: `hierarchical_name.strip().split("/")`. */
  function Segments(path: string): (r: seq<string>)
    ensures |r| >= 1
  {
    Split(Strip(path), '/')
  }

  /** A path every segment of which is a valid tag name. */
  predicate IsTagPath(path: string) {
    forall k :: 0 <= k < |Segments(path)| ==> IsLabel(Segments(path)[k])
  }

  /** The ids below `n` of the tags named `name` under `parent`, in increasing order. */
  function Matches(tags: seq<Tag>, name: string, parent: Option<nat>, n: nat): (r: seq<nat>)
    requires n <= |tags|
    ensures forall k: nat :: k in r <==> k < n && tags[k].name == name && tags[k].parent == parent
    ensures forall i, j :: 0 <= i < j < |r| ==> r[i] < r[j]
    ensures forall i :: 0 <= i < |r| ==> r[i] < n
    decreases n
  {
    if n == 0 then []
    else
      var m := Matches(tags, name, parent, n - 1);
      if tags[n - 1].name == name && tags[n - 1].parent == parent then m + [n - 1] else m
  }

  /** `query(Tag).filter_by(name=name, parent=parent).one_or_none()`. */
  function OneOrNone(tags: seq<Tag>, name: string, parent: Option<nat>): (r: Result<Option<nat>, Error>)
    ensures r == Ok(None) <==> forall k :: 0 <= k < |tags| ==> !(tags[k].name == name && tags[k].parent == parent)
    ensures r.Ok? && r.value.Some? ==>
      && r.value.value < |tags| && tags[r.value.value].name == name && tags[r.value.value].parent == parent
      && forall k :: 0 <= k < |tags| && tags[k].name == name && tags[k].parent == parent ==> k == r.value.value
    ensures r.Err? ==> r.error == MultipleFound && exists i, j :: (0 <= i < j < |tags|
      && tags[i].name == name && tags[i].parent == parent && tags[j].name == name && tags[j].parent == parent)
  {
    var m := Matches(tags, name, parent, |tags|);
    if |m| == 0 then Ok(None)
    else if |m| == 1 then
      assert m[0] in m;
      Ok(Some(m[0]))
    else
      assert m[0] in m && m[1] in m;
      Err(MultipleFound)
  }

  /** `query(Tag).filter_by(name=name, parent=parent).one()`. */
  function One(tags: seq<Tag>, name: string, parent: Option<nat>): (r: Result<nat, Error>)
    ensures r.Ok? <==> OneOrNone(tags, name, parent).Ok? && OneOrNone(tags, name, parent).value.Some?
    ensures r.Ok? ==> r.value == OneOrNone(tags, name, parent).value.value
    ensures r.Err? ==> r.error == (if OneOrNone(tags, name, parent) == Ok(None) then NotFound(TagPath) else MultipleFound)
  {
    match OneOrNone(tags, name, parent)
    case Err(e) => Err(e)
    case Ok(None) => Err(NotFound(TagPath))
    case Ok(Some(k)) => Ok(k)
  }

  /** Resolving the segments `segs` one by one, starting below `parent`. */
  function Walk(tags: seq<Tag>, segs: seq<string>, parent: Option<nat>): (r: Result<nat, Error>)
    requires segs != [] || parent.Some?
    requires parent.Some? ==> parent.value < |tags|
    ensures r.Ok? ==> r.value < |tags|
    ensures r.Err? ==> r.error == NotFound(TagPath) || r.error == MultipleFound
    decreases |segs|
  {
    if segs == [] then Ok(parent.value)
    else
      match One(tags, segs[0], parent)
      case Err(e) => Err(e)
      case Ok(k) => Walk(tags, segs[1..], Some(k))
  }

  /** The tag a hierarchical name denotes, as `find_tag` resolves it. */
  function ResolvePath(tags: seq<Tag>, path: string): (r: Result<nat, Error>)
    ensures r.Ok? ==> r.value < |tags|
  {
    Walk(tags, Segments(path), None)
  }

  /**
   * `find_tag`: walks the segments, each lookup starting below the tag found
   * for the previous one.
   */
  method FindTag(tags: seq<Tag>, path: string) returns (r: Result<nat, Error>)
    ensures r == ResolvePath(tags, path)
  {
    var segs := Segments(path);
    var parent: Option<nat> := None;
    var i := 0;
    while i < |segs|
      invariant 0 <= i <= |segs|
      invariant i > 0 <==> parent.Some?
      invariant parent.Some? ==> parent.value < |tags|
      invariant Walk(tags, segs[i..], parent) == ResolvePath(tags, path)
    {
      var current := One(tags, segs[i], parent);
      if current.Err? {
        return Err(current.error);
      }
      assert segs[i..][1..] == segs[i + 1..];
      parent := Some(current.value);
      i := i + 1;
    }
    return Ok(parent.value);
  }

  // ---------------------------------------------------------------------------
  // Resolution and hierarchical names

  /** With unique tags, `.one()` finds the tag named `name` under `parent`. */
  lemma OneFinds(tags: seq<Tag>, k: nat)
    requires TagsUnique(tags) && k < |tags|
    ensures One(tags, tags[k].name, tags[k].parent) == Ok(k)
  {
    var r := OneOrNone(tags, tags[k].name, tags[k].parent);
    assert r.Ok?;
  }

  /** With unique tags no lookup is ambiguous, so resolution never fails with MultipleFound. */
  lemma {:induction false} UniqueTagsUnambiguous(tags: seq<Tag>, segs: seq<string>, parent: Option<nat>)
    requires TagsUnique(tags)
    requires segs != [] || parent.Some?
    requires parent.Some? ==> parent.value < |tags|
    ensures Walk(tags, segs, parent) != Err(MultipleFound)
    decreases |segs|
  {
    if segs != [] {
      assert OneOrNone(tags, segs[0], parent).Ok?;
      match One(tags, segs[0], parent)
      case Err(e) =>
      case Ok(k) => UniqueTagsUnambiguous(tags, segs[1..], Some(k));
    }
  }

  /** Walking a tag's own name path, then `rest`, is walking `rest` from that tag. */
  lemma {:induction false} WalkNamePath(tags: seq<Tag>, i: nat, rest: seq<string>)
    requires TagsUnique(tags) && TagsAcyclic(tags) && i < |tags|
    ensures Walk(tags, NamePath(tags, i) + rest, None) == Walk(tags, rest, Some(i))
    decreases i
  {
    OneFinds(tags, i);
    var segs := [tags[i].name] + rest;
    assert segs[0] == tags[i].name && segs[1..] == rest;
    match tags[i].parent
    case None =>
      assert NamePath(tags, i) == [tags[i].name];
    case Some(p) =>
      WalkNamePath(tags, p, segs);
      SnocAppend(NamePath(tags, p), tags[i].name, rest);
  }

  /** The names on a tag's path are tag names. */
  lemma {:induction false} NamePathLabels(tags: seq<Tag>, i: nat)
    requires TagsAcyclic(tags) && LabelNames(tags) && i < |tags|
    ensures forall k :: 0 <= k < |NamePath(tags, i)| ==> IsLabel(NamePath(tags, i)[k])
    decreases i
  {
    match tags[i].parent
    case None =>
    case Some(p) => NamePathLabels(tags, p);
  }

  /** A hierarchical name starts and ends with a name character. */
  lemma {:induction false} HierarchicalNameEnds(tags: seq<Tag>, i: nat)
    requires TagsAcyclic(tags) && LabelNames(tags) && i < |tags|
    ensures |HierarchicalName(tags, i)| > 0
    ensures IsLabelChar(HierarchicalName(tags, i)[0])
    ensures IsLabelChar(HierarchicalName(tags, i)[|HierarchicalName(tags, i)| - 1])
    decreases i
  {
    var n := tags[i].name;
    assert IsLabel(n);
    match tags[i].parent
    case None =>
    case Some(p) =>
      HierarchicalNameEnds(tags, p);
      var h := HierarchicalName(tags, p);
      assert HierarchicalName(tags, i) == h + "/" + n;
      assert HierarchicalName(tags, i)[0] == h[0];
      assert HierarchicalName(tags, i)[|HierarchicalName(tags, i)| - 1] == n[|n| - 1];
  }

  /**
   * `find_tag(t.hierarchical_name)` is `t`: with unique (name, parent) pairs
   * and sanitized names, the hierarchical name addresses exactly its tag.
   */
  lemma {:induction false} ResolveHierarchicalName(tags: seq<Tag>, i: nat)
    requires TagsUnique(tags) && TagsAcyclic(tags) && LabelNames(tags) && i < |tags|
    ensures ResolvePath(tags, HierarchicalName(tags, i)) == Ok(i)
  {
    var names := NamePath(tags, i);
    HierarchicalNameStripped(tags, i);
    HierarchicalNameIsJoin(tags, i);
    NamePathSlashFree(tags, i);
    SplitJoin(names, '/');
    assert Segments(HierarchicalName(tags, i)) == names;
    WalkNamePath(tags, i, []);
    assert names + [] == names;
  }

  /** A hierarchical name has no surrounding whitespace. */
  lemma HierarchicalNameStripped(tags: seq<Tag>, i: nat)
    requires TagsAcyclic(tags) && LabelNames(tags) && i < |tags|
    ensures Strip(HierarchicalName(tags, i)) == HierarchicalName(tags, i)
  {
    var h := HierarchicalName(tags, i);
    HierarchicalNameEnds(tags, i);
    NameCharsAreNotSpace(h[0]);
    NameCharsAreNotSpace(h[|h| - 1]);
  }

  /** No name on a tag's path contains the separator. */
  lemma NamePathSlashFree(tags: seq<Tag>, i: nat)
    requires TagsAcyclic(tags) && LabelNames(tags) && i < |tags|
    ensures |NamePath(tags, i)| >= 1
    ensures forall p :: p in NamePath(tags, i) ==> '/' !in p
  {
    NamePathLabels(tags, i);
    var names := NamePath(tags, i);
    forall p | p in names ensures '/' !in p {
      var k :| 0 <= k < |names| && names[k] == p;
      assert IsLabel(names[k]);
      assert forall j :: 0 <= j < |p| ==> p[j] != '/' by {
        forall j | 0 <= j < |p| ensures p[j] != '/' {
          assert IsLabelChar(p[j]);
        }
      }
    }
  }

  /** The names of the tags a path up to `parent` leads through. */
  function PrefixNames(tags: seq<Tag>, parent: Option<nat>): seq<string>
    requires TagsAcyclic(tags)
    requires parent.Some? ==> parent.value < |tags|
  {
    if parent.Some? then NamePath(tags, parent.value) else []
  }

  /** A walk that succeeds follows the name path of the tag it ends at. */
  lemma {:induction false} WalkSound(tags: seq<Tag>, segs: seq<string>, parent: Option<nat>)
    requires TagsAcyclic(tags)
    requires segs != [] || parent.Some?
    requires parent.Some? ==> parent.value < |tags|
    requires Walk(tags, segs, parent).Ok?
    ensures NamePath(tags, Walk(tags, segs, parent).value) == PrefixNames(tags, parent) + segs
    decreases |segs|
  {
    if segs == [] {
      assert PrefixNames(tags, parent) + segs == PrefixNames(tags, parent);
    } else {
      var k := One(tags, segs[0], parent).value;
      WalkSound(tags, segs[1..], Some(k));
      var pre := PrefixNames(tags, parent);
      assert NamePath(tags, k) == pre + [segs[0]];
      AppendHead(pre, segs);
    }
  }

  lemma AppendHead<T>(pre: seq<T>, s: seq<T>)
    requires |s| > 0
    ensures pre + [s[0]] + s[1..] == pre + s
  {
    assert s == [s[0]] + s[1..];
  }

  lemma TailOfSuffix<T>(s: seq<T>, i: nat)
    requires i < |s|
    ensures s[i..] != [] && s[i..][0] == s[i] && s[i..][1..] == s[i + 1..]
  {
  }

  lemma SnocAppend<T>(pre: seq<T>, x: T, rest: seq<T>)
    ensures pre + [x] + rest == pre + ([x] + rest)
  {
  }

  /** Whatever `find_tag` returns has the (trimmed) path as its hierarchical name. */
  lemma {:induction false} ResolveSound(tags: seq<Tag>, path: string)
    requires TagsAcyclic(tags)
    requires ResolvePath(tags, path).Ok?
    ensures HierarchicalName(tags, ResolvePath(tags, path).value) == Strip(path)
  {
    var i := ResolvePath(tags, path).value;
    WalkSound(tags, Segments(path), None);
    assert [] + Segments(path) == Segments(path);
    HierarchicalNameIsJoin(tags, i);
    JoinSplit(Strip(path), '/');
  }

  /** Paths that resolve to the same tag are equal once trimmed. */
  lemma {:induction false} ResolveInjective(tags: seq<Tag>, p: string, q: string)
    requires TagsAcyclic(tags)
    requires ResolvePath(tags, p).Ok? && ResolvePath(tags, p) == ResolvePath(tags, q)
    ensures Strip(p) == Strip(q)
  {
    ResolveSound(tags, p);
    ResolveSound(tags, q);
  }

  /** The root tag "tag2" is a different tag from "a/b/tag2". */
  lemma {:induction false} RootTagDistinctFromNested(tags: seq<Tag>, p: string, q: string)
    requires p == "tag2" && q == "a/b/tag2"
    requires TagsAcyclic(tags)
    requires ResolvePath(tags, p).Ok? && ResolvePath(tags, q).Ok?
    ensures ResolvePath(tags, p) != ResolvePath(tags, q)
  {
    assert !IsSpace(p[0]) && !IsSpace(p[|p| - 1]) && !IsSpace(q[0]) && !IsSpace(q[|q| - 1]);
    assert |p| != |q|;
    if ResolvePath(tags, p) == ResolvePath(tags, q) {
      ResolveInjective(tags, p, q);
    }
  }

  // ---------------------------------------------------------------------------
  // Creating tags

  /**
   * One segment of `create_hierarchical_tag` below `parent`: the existing tag
   * of that name, or else a new tag with the sanitized name, which the store
   * rejects when that name already exists under the same parent.
   */
  function Advance(tags: seq<Tag>, seg: string, parent: Option<nat>): (r: Result<(seq<Tag>, nat), Error>)
    requires parent.Some? ==> parent.value < |tags|
    ensures r.Ok? ==> |tags| <= |r.value.0| && r.value.1 < |r.value.0|
  {
    var found := OneOrNone(tags, seg, parent);
    if found.Err? then Err(found.error)
    else if found.value.Some? then Ok((tags, found.value.value))
    else
      var name := SanitizeLabel(seg);
      if name.Err? then Err(name.error)
      else if OneOrNone(tags, name.value, parent) != Ok(None) then Err(IntegrityError)
      else Ok((tags + [Tag(name.value, None, parent)], |tags|))
  }

  /**
   * What `create_hierarchical_tag` does to the segments `segs` below
   * `parent`: the extended tag table and the tag of the last segment.
   */
  function EnsurePath(tags: seq<Tag>, segs: seq<string>, parent: Option<nat>): (r: Result<(seq<Tag>, nat), Error>)
    requires segs != [] || parent.Some?
    requires parent.Some? ==> parent.value < |tags|
    ensures r.Ok? ==> |tags| <= |r.value.0| && r.value.1 < |r.value.0|
    decreases |segs|
  {
    if segs == [] then Ok((tags, parent.value))
    else
      match Advance(tags, segs[0], parent)
      case Err(e) => Err(e)
      case Ok((more, k)) => EnsurePath(more, segs[1..], Some(k))
  }

  /**
   * `create_hierarchical_tag` on the session's view of the tag table:
   * returns the table with the tags it added and the tag for `path`.
   */
  method CreateHierarchicalTag(tags: seq<Tag>, path: string) returns (r: Result<(seq<Tag>, nat), Error>)
    ensures r == EnsurePath(tags, Segments(path), None)
  {
    var segs := Segments(path);
    var session := tags;
    var parent: Option<nat> := None;
    var i := 0;
    while i < |segs|
      invariant 0 <= i <= |segs|
      invariant i > 0 <==> parent.Some?
      invariant parent.Some? ==> parent.value < |session|
      invariant EnsurePath(session, segs[i..], parent) == EnsurePath(tags, segs, None)
    {
      var step := Advance(session, segs[i], parent);
      TailOfSuffix(segs, i);
      if step.Err? {
        return Err(step.error);
      }
      session := step.value.0;
      parent := Some(step.value.1);
      i := i + 1;
    }
    return Ok((session, parent.value));
  }

  /** Appending a tag that does not clash keeps the table's constraints. */
  lemma AppendTag(tags: seq<Tag>, t: Tag)
    requires OneOrNone(tags, t.name, t.parent) == Ok(None)
    requires t.parent.Some? ==> t.parent.value < |tags|
    ensures TagsUnique(tags) ==> TagsUnique(tags + [t])
    ensures TagsAcyclic(tags) ==> TagsAcyclic(tags + [t])
    ensures LabelNames(tags) && IsLabel(t.name) ==> LabelNames(tags + [t])
  {
    var more := tags + [t];
    if TagsUnique(tags) {
      forall i, j | 0 <= i < j < |more| ensures !(more[i].name == more[j].name && more[i].parent == more[j].parent) {
        if j == |tags| {
          assert more[i] == tags[i];
        }
      }
    }
  }

  /** One step only appends (at most one tag) and keeps the table's constraints. */
  lemma AdvanceGrows(tags: seq<Tag>, seg: string, parent: Option<nat>)
    requires parent.Some? ==> parent.value < |tags|
    requires Advance(tags, seg, parent).Ok?
    ensures var (more, k) := Advance(tags, seg, parent).value;
      && |more| <= |tags| + 1 && more[..|tags|] == tags
      && (TagsUnique(tags) ==> TagsUnique(more))
      && (TagsAcyclic(tags) ==> TagsAcyclic(more))
      && (LabelNames(tags) ==> LabelNames(more))
  {
    if OneOrNone(tags, seg, parent) == Ok(None) {
      var n := SanitizeLabel(seg).value;
      AppendTag(tags, Tag(n, None, parent));
      assert (tags + [Tag(n, None, parent)])[..|tags|] == tags;
    }
  }

  /** Creating a path only appends tags (at most one per segment) and keeps the table's constraints. */
  lemma {:induction false} EnsurePathGrows(tags: seq<Tag>, segs: seq<string>, parent: Option<nat>)
    requires segs != [] || parent.Some?
    requires parent.Some? ==> parent.value < |tags|
    requires EnsurePath(tags, segs, parent).Ok?
    ensures var (grown, k) := EnsurePath(tags, segs, parent).value;
      && |tags| <= |grown| <= |tags| + |segs| && grown[..|tags|] == tags && k < |grown|
      && (TagsUnique(tags) ==> TagsUnique(grown))
      && (TagsAcyclic(tags) ==> TagsAcyclic(grown))
      && (LabelNames(tags) ==> LabelNames(grown))
    decreases |segs|
  {
    if segs != [] {
      AdvanceGrows(tags, segs[0], parent);
      var (more, k) := Advance(tags, segs[0], parent).value;
      EnsurePathGrows(more, segs[1..], Some(k));
      var grown := EnsurePath(more, segs[1..], Some(k)).value.0;
      PrefixOfPrefix(grown, more, tags);
    }
  }

  lemma PrefixOfPrefix<T>(c: seq<T>, b: seq<T>, a: seq<T>)
    requires |a| <= |b| <= |c| && c[..|b|] == b && b[..|a|] == a
    ensures c[..|a|] == a
  {
    assert c[..|a|] == c[..|b|][..|a|];
  }

  /** When the whole path exists, `create_hierarchical_tag` returns its tag and creates nothing. */
  lemma {:induction false} EnsureExisting(tags: seq<Tag>, segs: seq<string>, parent: Option<nat>)
    requires segs != [] || parent.Some?
    requires parent.Some? ==> parent.value < |tags|
    requires Walk(tags, segs, parent).Ok?
    ensures EnsurePath(tags, segs, parent) == Ok((tags, Walk(tags, segs, parent).value))
    decreases |segs|
  {
    if segs != [] {
      var k := One(tags, segs[0], parent).value;
      assert Advance(tags, segs[0], parent) == Ok((tags, k));
      EnsureExisting(tags, segs[1..], Some(k));
    }
  }

  /** The tag one step returns carries the segment's name under `parent`, for a valid segment. */
  lemma AdvanceFinds(tags: seq<Tag>, seg: string, parent: Option<nat>)
    requires parent.Some? ==> parent.value < |tags|
    requires IsLabel(seg) && Advance(tags, seg, parent).Ok?
    ensures var (more, k) := Advance(tags, seg, parent).value;
      more[k].name == seg && more[k].parent == parent
  {
    if OneOrNone(tags, seg, parent) == Ok(None) {
      SanitizeLabelOfLabel(seg);
    }
  }

  /** After `create_hierarchical_tag` succeeds on a well-formed path, the path resolves to the tag it returned. */
  lemma {:induction false} EnsureThenWalk(tags: seq<Tag>, segs: seq<string>, parent: Option<nat>)
    requires TagsUnique(tags)
    requires segs != [] || parent.Some?
    requires parent.Some? ==> parent.value < |tags|
    requires forall k :: 0 <= k < |segs| ==> IsLabel(segs[k])
    requires EnsurePath(tags, segs, parent).Ok?
    ensures var (grown, k) := EnsurePath(tags, segs, parent).value;
      Walk(grown, segs, parent) == Ok(k)
    decreases |segs|
  {
    EnsurePathGrows(tags, segs, parent);
    if segs != [] {
      var rest := segs[1..];
      assert forall j :: 0 <= j < |rest| ==> IsLabel(rest[j]) by {
        forall j | 0 <= j < |rest| ensures IsLabel(rest[j]) {
          assert rest[j] == segs[j + 1];
        }
      }
      AdvanceGrows(tags, segs[0], parent);
      AdvanceFinds(tags, segs[0], parent);
      var (more, c) := Advance(tags, segs[0], parent).value;
      EnsureThenWalk(more, rest, Some(c));
      EnsurePathGrows(more, rest, Some(c));
      var grown := EnsurePath(more, rest, Some(c)).value.0;
      assert grown[c] == more[c] by {
        assert grown[..|more|][c] == more[c];
      }
      OneFinds(grown, c);
    }
  }

  /**
   * `create_hierarchical_tag(path)` on a well-formed path: the returned tag's
   * hierarchical name is the trimmed path, and `find_tag(path)` finds it.
   */
  lemma {:induction false} CreateThenFind(tags: seq<Tag>, path: string)
    requires TagsUnique(tags) && TagsAcyclic(tags) && IsTagPath(path)
    requires EnsurePath(tags, Segments(path), None).Ok?
    ensures TagsAcyclic(EnsurePath(tags, Segments(path), None).value.0)
    ensures var (grown, k) := EnsurePath(tags, Segments(path), None).value;
      ResolvePath(grown, path) == Ok(k) && HierarchicalName(grown, k) == Strip(path)
  {
    EnsurePathGrows(tags, Segments(path), None);
    EnsureThenWalk(tags, Segments(path), None);
    var (grown, k) := EnsurePath(tags, Segments(path), None).value;
    ResolveSound(grown, path);
  }

  /**
   * `create_tag`: sanitize the name, find the parent (a missing parent is an
   * error), then insert the tag, which the store rejects when a tag of that
   * name already has that parent.
   */
  method CreateTag(db: Database, name: string, description: Option<string>, parentPath: Option<string>)
      returns (r: Outcome<Error>)
    requires db.Wf()
    modifies db`tags
    ensures db.Wf()
    ensures r.Fail? ==> db.tags == old(db.tags)
    ensures r.Pass? <==>
      && SanitizeLabel(name).Ok?
      && (parentPath.Some? ==> ResolvePath(old(db.tags), parentPath.value).Ok?)
      && OneOrNone(old(db.tags), SanitizeLabel(name).value,
                   if parentPath.Some? then Some(ResolvePath(old(db.tags), parentPath.value).value) else None) == Ok(None)
    ensures r.Pass? ==> |db.tags| == |old(db.tags)| + 1 && db.tags[..|old(db.tags)|] == old(db.tags)
    ensures r.Pass? ==> var t := db.tags[|old(db.tags)|];
      && t.name == SanitizeLabel(name).value && t.description == description
      && (parentPath.None? ==> t.parent.None? && HierarchicalName(db.tags, |old(db.tags)|) == t.name)
      && (parentPath.Some? ==> HierarchicalName(db.tags, |old(db.tags)|) == Strip(parentPath.value) + "/" + t.name)
    ensures r == Fail(NotFound(ParentTag)) <==>
      SanitizeLabel(name).Ok? && parentPath.Some? && ResolvePath(old(db.tags), parentPath.value) == Err(NotFound(TagPath))
  {
    var n := SanitizeLabel(name);
    if n.Err? {
      return Fail(n.error);
    }
    var parent: Option<nat> := None;
    if parentPath.Some? {
      var p := FindTag(db.tags, parentPath.value);
      if p.Err? {
        return if p.error == NotFound(TagPath) then Fail(NotFound(ParentTag)) else Fail(p.error);
      }
      parent := Some(p.value);
    }
    var ok := db.InsertTag(Tag(n.value, description, parent));
    if !ok {
      return Fail(IntegrityError);
    }
    if parentPath.Some? {
      ResolveSound(old(db.tags), parentPath.value);
      HierarchicalNameStable(old(db.tags), [db.tags[|old(db.tags)|]], parent.value);
    }
    return Pass;
  }

  // ---------------------------------------------------------------------------
  // Duplicate root tags

  /** Two root tags named "x", which UNIQUE (name, parent_id) lets an SQL store hold. */
  const TwoRootsNamedX: seq<Tag> := [Tag("x", None, None), Tag("x", None, None)]

  /**
   * As written, the unique constraint does not stop a second root tag "x"
   * (`create_tag("x")` twice succeeds), and `find_tag("x")` then fails with
   * MultipleResultsFound instead of finding the tag.
   */
  lemma {:induction false} DuplicateRootsAmbiguous()
    ensures SqlTagsUnique(TwoRootsNamedX) && TagsAcyclic(TwoRootsNamedX)
    ensures !TagsUnique(TwoRootsNamedX)
    ensures ResolvePath(TwoRootsNamedX, "x") == Err(MultipleFound)
  {
    var tags := TwoRootsNamedX;
    assert "x"[0] == 'x' && Stripped("x");
    assert '/' !in "x";
    SplitNoSeparator("x", '/');
    assert Segments("x") == ["x"];
    assert tags[0].name == "x" && tags[1].name == "x";
    var r := OneOrNone(tags, "x", None);
    assert r != Ok(None);
    if r.Ok? {
      assert false;
    }
  }
}
