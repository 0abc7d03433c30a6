/**
 Findings inside an expanded image are reported under the directory it was expanded to;
 relabelling turns that back into "<image>!/<path in the image>" by bare string replacement.
 The theorems say what the replacement does on any text in which the prepared directories occur
 only at the start, and exactly when it inverts the expansion.
 */
module Relabel {
  import opened Text
  import opened Paths
  import opened Wrappers
  import opened Mount

  function RelabelOne(s: string, p: PreparedImage): string {
    ReplaceAll(ReplaceAll(s, p.dir + "/", p.image + "!/"), p.dir, p.image)
  }

  function Relabelled(s: string, prepared: seq<PreparedImage>): string
    decreases |prepared|
  {
    if prepared == [] then s else Relabelled(RelabelOne(s, prepared[0]), prepared[1..])
  }

  method RelabelPath(s: string, prepared: seq<PreparedImage>) returns (r: string)
    ensures r == Relabelled(s, prepared)
  {
    r := s;
    for i := 0 to |prepared|
      invariant Relabelled(r, prepared[i..]) == Relabelled(s, prepared)
    {
      assert prepared[i..][1..] == prepared[i + 1..];
      r := ReplaceAll(r, prepared[i].dir + "/", prepared[i].image + "!/");
      r := ReplaceAll(r, prepared[i].dir, prepared[i].image);
    }
  }

  // -------------------------------------------------------------- one directory

  ghost predicate OnlyAtStart(s: string, dir: string) {
    forall at: nat :: OccursAt(s, dir, at) ==> at == 0
  }

  /** What a text starting with the directory should become. */
  function Rewritten(s: string, p: PreparedImage): string
    requires HasPrefix(s, p.dir)
  {
    if HasPrefix(s, p.dir + "/") then p.image + "!/" + s[|p.dir| + 1..] else p.image + s[|p.dir|..]
  }

  lemma OccursInRest(s: string, what: string, from: nat, at: nat)
    requires from <= |s| && OccursAt(s[from..], what, at)
    ensures OccursAt(s, what, from + at)
  {
    assert s[from..][at..at + |what|] == s[from + at..from + at + |what|];
  }

  lemma OccursShorter(s: string, what: string, more: string, at: nat)
    requires OccursAt(s, what + more, at)
    ensures OccursAt(s, what, at)
  {
    assert s[at..at + |what|] == s[at..at + |what + more|][..|what|];
  }

  lemma ReplaceAllAtStart(s: string, what: string, with: string)
    requires what != "" && HasPrefix(s, what) && !Contains(s[|what|..], what)
    ensures ReplaceAll(s, what, with) == with + s[|what|..]
  {
    ReplaceAllAbsent(s[|what|..], what, with);
  }

  lemma RelabelOneAbsent(s: string, p: PreparedImage)
    requires p.dir != "" && !Contains(s, p.dir)
    ensures RelabelOne(s, p) == s
  {
    forall at: nat | OccursAt(s, p.dir + "/", at)
      ensures Contains(s, p.dir)
    {
      OccursShorter(s, p.dir, "/", at);
    }
    ReplaceAllAbsent(s, p.dir + "/", p.image + "!/");
    ReplaceAllAbsent(s, p.dir, p.image);
  }

  lemma RestIsFree(s: string, dir: string, more: string)
    requires dir != "" && OnlyAtStart(s, dir) && HasPrefix(s, dir + more)
    ensures !Contains(s[|dir + more|..], dir + more)
  {
    forall at: nat | OccursAt(s[|dir + more|..], dir + more, at)
      ensures false
    {
      OccursInRest(s, dir + more, |dir + more|, at);
      OccursShorter(s, dir, more, |dir + more| + at);
    }
  }

  lemma RelabelOneAtStart(s: string, p: PreparedImage)
    requires p.dir != "" && HasPrefix(s, p.dir) && OnlyAtStart(s, p.dir)
    requires !Contains(Rewritten(s, p), p.dir)
    ensures RelabelOne(s, p) == Rewritten(s, p)
  {
    if HasPrefix(s, p.dir + "/") {
      RestIsFree(s, p.dir, "/");
      ReplaceAllAtStart(s, p.dir + "/", p.image + "!/");
      ReplaceAllAbsent(Rewritten(s, p), p.dir, p.image);
    } else {
      forall at: nat | OccursAt(s, p.dir + "/", at)
        ensures false
      {
        OccursShorter(s, p.dir, "/", at);
      }
      ReplaceAllAbsent(s, p.dir + "/", p.image + "!/");
      assert p.dir + "" == p.dir;
      RestIsFree(s, p.dir, "");
      ReplaceAllAtStart(s, p.dir, p.image);
    }
  }

  // ------------------------------------------------------------ all directories

  /** The first prepared image whose directory starts the text. */
  function FirstPrefix(s: string, prepared: seq<PreparedImage>): (first: Option<nat>)
    ensures first.Some? ==> first.value < |prepared| && HasPrefix(s, prepared[first.value].dir)
    ensures forall j :: 0 <= j < |prepared| && (first.Some? ==> j < first.value) ==> !HasPrefix(s, prepared[j].dir)
  {
    if prepared == [] then None
    else if HasPrefix(s, prepared[0].dir) then Some(0)
    else
      var rest := FirstPrefix(s, prepared[1..]);
      if rest.None? then None else Some(rest.value + 1)
  }

  /** Could an occurrence of the directory begin within this image path, whatever follows the path? */
  ghost predicate BeginsIn(image: string, dir: string) {
    exists at: nat :: at < |image| && Agree(image[at..], dir)
  }

  predicate Agree(a: string, b: string) {
    a <= b || b <= a
  }

  /**
   No prepared directory occurs in the text except at its start, or could begin within the path of
   an image whose directory starts the text.
   */
  ghost predicate Clear(s: string, prepared: seq<PreparedImage>) {
    && (forall k :: 0 <= k < |prepared| ==>
          prepared[k].dir != "" && prepared[k].dir[0] != '!' && OnlyAtStart(s, prepared[k].dir))
    && (forall j, k :: 0 <= j < |prepared| && 0 <= k < |prepared| && HasPrefix(s, prepared[j].dir) ==>
          !BeginsIn(prepared[j].image, prepared[k].dir))
  }

  /** An occurrence in `front + rest` that starts in the front. */
  lemma OccursInFront(front: string, rest: string, dir: string, at: nat)
    requires OccursAt(front + rest, dir, at) && at < |front|
    ensures Agree(front[at..], dir)
  {
    var w := front + rest;
    assert w[at..at + |dir|] == dir;
    if at + |dir| <= |front| {
      assert front[at..][..|dir|] == w[at..at + |dir|];
    } else {
      assert dir[..|front| - at] == w[at..|front|] == front[at..];
    }
  }

  /** An occurrence in `front + rest` that starts in the rest. */
  lemma OccursInBack(front: string, rest: string, dir: string, at: nat)
    requires OccursAt(front + rest, dir, at) && at >= |front|
    ensures OccursAt(rest, dir, at - |front|)
  {
    assert rest[at - |front|..at - |front| + |dir|] == (front + rest)[at..at + |dir|];
  }

  lemma OccursFirst(s: string, dir: string, at: nat)
    requires dir != "" && OccursAt(s, dir, at)
    ensures s[at] == dir[0]
  {
    assert s[at..at + |dir|][0] == s[at];
  }

  /** Rewriting a clear text brings in no occurrence of a directory. */
  lemma RewrittenIsFree(s: string, p: PreparedImage, dir: string)
    requires p.dir != "" && HasPrefix(s, p.dir) && dir != "" && dir[0] != '!'
    requires OnlyAtStart(s, dir) && !BeginsIn(p.image, dir)
    ensures !Contains(Rewritten(s, p), dir)
  {
    var n, marked := |p.dir|, HasPrefix(s, p.dir + "/");
    var mark := if marked then "!" else "";
    assert Rewritten(s, p) == p.image + (mark + s[n..]) by {
      if marked {
        assert s[n] == (p.dir + "/")[n] == '/';
        assert "!/" + s[n + 1..] == "!" + s[n..];
        assert p.image + "!/" + s[n + 1..] == p.image + ("!/" + s[n + 1..]);
      } else {
        assert "" + s[n..] == s[n..];
      }
    }
    forall at: nat | OccursAt(p.image + (mark + s[n..]), dir, at)
      ensures false
    {
      if at < |p.image| {
        OccursInFront(p.image, mark + s[n..], dir, at);
      } else {
        OccursInBack(p.image, mark + s[n..], dir, at);
        var inner := at - |p.image|;
        OccursFirst(mark + s[n..], dir, inner);
        if inner >= |mark| {
          OccursInBack(mark, s[n..], dir, inner);
          OccursInRest(s, dir, n, inner - |mark|);
        }
      }
    }
  }

  /** A text that contains no prepared directory is unchanged. */
  lemma {:induction false} RelabelLeavesOthers(s: string, prepared: seq<PreparedImage>)
    requires forall j :: 0 <= j < |prepared| ==> prepared[j].dir != "" && !Contains(s, prepared[j].dir)
    ensures Relabelled(s, prepared) == s
  {
    if prepared != [] {
      RelabelOneAbsent(s, prepared[0]);
      RelabelLeavesOthers(s, prepared[1..]);
    }
  }

  /** The first prepared directory that is a string prefix of the text decides what it becomes. */
  lemma {:induction false} FirstPrefixWins(s: string, prepared: seq<PreparedImage>)
    requires Clear(s, prepared)
    ensures Relabelled(s, prepared) ==
            var first := FirstPrefix(s, prepared);
            if first.None? then s else Rewritten(s, prepared[first.value])
  {
    if prepared != [] {
      var p := prepared[0];
      if HasPrefix(s, p.dir) {
        forall k | 0 <= k < |prepared|
          ensures !Contains(Rewritten(s, p), prepared[k].dir)
        {
          RewrittenIsFree(s, p, prepared[k].dir);
        }
        RelabelOneAtStart(s, p);
        RelabelLeavesOthers(Rewritten(s, p), prepared[1..]);
      } else {
        forall at: nat | OccursAt(s, p.dir, at)
          ensures false
        {
        }
        RelabelOneAbsent(s, p);
        FirstPrefixWins(s, prepared[1..]);
      }
    }
  }

  // ------------------------------------------------------- inverting the expansion

  predicate EndsInDigit(s: string) {
    s != "" && IsDigit(s[|s| - 1])
  }

  function Inside(p: PreparedImage, rel: string): string {
    p.dir + "/" + rel
  }

  function Label(p: PreparedImage, rel: string): string {
    p.image + "!/" + rel
  }

  /** Two texts with the same tail after a slash have the same front. */
  lemma SameTail(a: string, b: string, rel: string)
    requires a + "/" + rel == b + "/" + rel
    ensures a == b
  {
    assert |a| == |b|;
    assert a == (a + "/" + rel)[..|a|] && b == (b + "/" + rel)[..|b|];
  }

  /** What rewriting by a shorter directory makes of the rest `t` of the longer one. */
  function Leftover(q: PreparedImage, t: string): string
    requires t != ""
  {
    if t[0] == '/' then q.image + "!/" + t[1..] else q.image + t
  }

  lemma RewrittenByShorter(q: PreparedImage, t: string, rel: string)
    requires t != ""
    ensures var s := q.dir + t + "/" + rel;
            HasPrefix(s, q.dir) && Rewritten(s, q) == Leftover(q, t) + "/" + rel
  {
    var s, tail := q.dir + t + "/" + rel, t + "/" + rel;
    assert s == q.dir + tail;
    assert s[..|q.dir|] == q.dir && s[|q.dir|..] == tail && s[|q.dir|] == t[0];
    if t[0] == '/' {
      assert s[..|q.dir| + 1] == q.dir + "/";
      assert s[|q.dir| + 1..] == tail[1..] == t[1..] + "/" + rel;
    }
  }

  /** Rewriting by a shorter directory leaves a digit where the label has its mark. */
  lemma ShorterDirMislabels(p: PreparedImage, q: PreparedImage, rel: string)
    requires HasPrefix(p.dir, q.dir) && |q.dir| < |p.dir| && EndsInDigit(p.dir)
    ensures HasPrefix(Inside(p, rel), q.dir)
    ensures Rewritten(Inside(p, rel), q) != Label(p, rel)
  {
    var t := p.dir[|q.dir|..];
    assert p.dir == q.dir + t;
    RewrittenByShorter(q, t, rel);
    var front, mark := Leftover(q, t), p.image + "!";
    assert IsDigit(front[|front| - 1]) && mark[|mark| - 1] == '!';
    assert Label(p, rel) == mark + "/" + rel;
    if front + "/" + rel == mark + "/" + rel {
      SameTail(front, mark, rel);
    }
  }

  lemma OwnDirLabels(p: PreparedImage, rel: string)
    ensures HasPrefix(Inside(p, rel), p.dir) && Rewritten(Inside(p, rel), p) == Label(p, rel)
  {
    var s := Inside(p, rel);
    assert s == (p.dir + "/") + rel;
    assert s[..|p.dir|] == p.dir && s[..|p.dir| + 1] == p.dir + "/" && s[|p.dir| + 1..] == rel;
  }

  /** Relabelling a finding inside image `i` is decided by an image up to `i`. */
  lemma SomeImageWins(prepared: seq<PreparedImage>, i: nat, rel: string) returns (first: nat)
    requires i < |prepared| && Clear(Inside(prepared[i], rel), prepared)
    ensures var s := Inside(prepared[i], rel);
            && first <= i && HasPrefix(s, prepared[first].dir)
            && Relabelled(s, prepared) == Rewritten(s, prepared[first])
            && forall j :: 0 <= j < first ==> !HasPrefix(s, prepared[j].dir)
  {
    var s := Inside(prepared[i], rel);
    FirstPrefixWins(s, prepared);
    OwnDirLabels(prepared[i], rel);
    first := FirstPrefix(s, prepared).value;
  }

  lemma PrefixesNest(s: string, a: string, b: string)
    requires HasPrefix(s, a) && HasPrefix(s, b) && |a| <= |b|
    ensures HasPrefix(b, a)
  {
    assert a == s[..|a|] == s[..|b|][..|a|];
  }

  lemma PrefixOfInside(p: PreparedImage, rel: string, dir: string)
    requires !HasPrefix(dir, p.dir + "/")
    ensures HasPrefix(Inside(p, rel), dir) <==> HasPrefix(p.dir, dir)
  {
    var s := Inside(p, rel);
    assert s == (p.dir + "/") + rel;
    if HasPrefix(s, dir) {
      if |dir| <= |p.dir| {
        PrefixesNest(s, dir, p.dir);
      } else {
        PrefixesNest(s, p.dir + "/", dir);
      }
    }
  }

  /**
   Relabelling inverts the expansion of image number `i` exactly when no earlier prepared
   directory is a string prefix of its directory.
   */
  lemma RelabelInverts(prepared: seq<PreparedImage>, i: nat, rel: string)
    requires i < |prepared| && DistinctDirs(prepared) && Clear(Inside(prepared[i], rel), prepared)
    requires EndsInDigit(prepared[i].dir)
    requires forall j :: 0 <= j < i ==> !HasPrefix(prepared[j].dir, prepared[i].dir + "/")
    ensures Relabelled(Inside(prepared[i], rel), prepared) == Label(prepared[i], rel) <==>
            forall j :: 0 <= j < i ==> !HasPrefix(prepared[i].dir, prepared[j].dir)
  {
    var p := prepared[i];
    var first := SomeImageWins(prepared, i, rel);
    if first == i {
      OwnDirLabels(p, rel);
      forall j | 0 <= j < i
        ensures !HasPrefix(p.dir, prepared[j].dir)
      {
        PrefixOfInside(p, rel, prepared[j].dir);
      }
    } else {
      var q := prepared[first];
      PrefixOfInside(p, rel, q.dir);
      if |q.dir| == |p.dir| {
        PrefixesNest(Inside(p, rel), p.dir, q.dir);
      } else {
        ShorterDirMislabels(p, q, rel);
      }
    }
  }

  // -------------------------------------------- the directories PrepareImages uses

  /** Cleaned, the mount and extraction bases are the same, or neither lies under the other. */
  predicate BasesApart(mountBase: string, extractBase: string) {
    SameOrApart(Parts(mountBase), Parts(extractBase))
  }

  predicate SameOrApart(a: seq<string>, b: seq<string>) {
    a == b || (!(a <= b) && !(b <= a))
  }

  /** What comes before the number in a slot directory. */
  function SlotFront(base: string): string {
    if Parts(base) == [] then "" else Join(Parts(base), "/") + "/"
  }

  lemma SlotDirShape(base: string, i: nat)
    ensures EndsInDigit(SlotDir(base, i))
    ensures SlotDir(base, i) == SlotFront(base) + Itoa(i)
  {
    var b, n := Parts(base), Itoa(i);
    ItoaIsSegment(i);
    JoinPathAddsName(base, n);
    if b != [] {
      JoinOfConcat(b, [n], "/");
    } else {
      assert b + [n] == [n];
    }
    assert IsDigit(n[|n| - 1]);
  }

  /** Joined lists extend each other by whole elements. */
  lemma JoinPrefix(p: seq<string>, q: seq<string>)
    requires p != [] && q != []
    requires (forall i :: 0 <= i < |p| ==> '/' !in p[i]) && (forall i :: 0 <= i < |q| ==> '/' !in q[i])
    requires HasPrefix(Join(q, "/"), Join(p, "/") + "/")
    ensures p <= q
  {
    var front, text := Join(p, "/"), Join(q, "/");
    var tail := text[|front| + 1..];
    assert text == front + ['/'] + tail;
    SplitOfConcat(front, '/', tail);
    SplitOfJoin(p, '/');
    SplitOfJoin(q, '/');
  }

  /** One slot directory is a string prefix of another only within one base, and then by number. */
  lemma SlotPrefix(a: string, i: nat, b: string, j: nat)
    requires SameOrApart(Parts(a), Parts(b))
    ensures HasPrefix(SlotDir(b, j), SlotDir(a, i)) <==> Parts(a) == Parts(b) && HasPrefix(Itoa(j), Itoa(i))
  {
    SlotDirShape(a, i);
    SlotDirShape(b, j);
    if Parts(a) == Parts(b) {
      SamePrefix(SlotFront(a), Itoa(i), Itoa(j));
    } else if HasPrefix(SlotDir(b, j), SlotDir(a, i)) {
      ItoaIsSegment(j);
      JoinPathAddsName(b, Itoa(j));
      var p, q := Parts(a), Parts(b) + [Itoa(j)];
      assert HasPrefix(SlotDir(b, j), Join(p, "/") + "/") by {
        assert SlotDir(a, i)[..|SlotFront(a)|] == SlotFront(a);
      }
      JoinPrefix(p, q);
      PrefixOfSnoc(p, Parts(b), Itoa(j));
    }
  }

  lemma SamePrefix(front: string, x: string, y: string)
    ensures HasPrefix(front + y, front + x) <==> HasPrefix(y, x)
  {
    assert (front + x)[|front|..] == x && (front + y)[|front|..] == y;
    if HasPrefix(front + y, front + x) {
      assert x == (front + y)[|front|..|front| + |x|] == y[..|x|];
    }
    if HasPrefix(y, x) {
      assert front + y == (front + x) + y[|x|..];
    }
  }

  lemma PrefixOfSnoc(p: seq<string>, b: seq<string>, y: string)
    requires p <= b + [y]
    ensures p <= b || b <= p
  {
  }

  lemma SnocPrefix(a: seq<string>, x: string, b: seq<string>, y: string)
    requires a + [x] <= b + [y]
    ensures (a + [x] == b + [y]) || (a <= b && |a| < |b|)
  {
    if |a| < |b| {
      assert a == (a + [x])[..|a|] == (b + [y])[..|a|] == b[..|a|];
    }
  }

  lemma SlotNotInside(a: string, i: nat, b: string, j: nat)
    requires SameOrApart(Parts(a), Parts(b))
    ensures !HasPrefix(SlotDir(b, j), SlotDir(a, i) + "/")
  {
    ItoaIsSegment(i);
    ItoaIsSegment(j);
    JoinPathAddsName(a, Itoa(i));
    JoinPathAddsName(b, Itoa(j));
    var p, q := Parts(a) + [Itoa(i)], Parts(b) + [Itoa(j)];
    if HasPrefix(SlotDir(b, j), SlotDir(a, i) + "/") {
      JoinPrefix(p, q);
      SnocPrefix(Parts(a), Itoa(i), Parts(b), Itoa(j));
    }
  }

  /** Whether prepared image `k` stems from a target that another one's number extends. */
  ghost predicate NumberedBefore(prepared: seq<PreparedImage>, targets: seq<string>, outcomes: seq<Outcome>,
                                 mountBase: string, extractBase: string, k: nat, i: nat) {
    exists m: nat, n: nat ::
      && m != n
      && k < |prepared| && PreparedFrom(prepared[k], targets, outcomes, m, mountBase, extractBase)
      && i < |prepared| && PreparedFrom(prepared[i], targets, outcomes, n, mountBase, extractBase)
      && Parts(BaseOf(outcomes, m, mountBase, extractBase)) == Parts(BaseOf(outcomes, n, mountBase, extractBase))
      && HasPrefix(Itoa(n), Itoa(m))
  }

  function BaseOf(outcomes: seq<Outcome>, i: nat, mountBase: string, extractBase: string): string {
    if i < |outcomes| && outcomes[i] == Mounted then mountBase else extractBase
  }

  lemma PrefixMeansNumber(targets: seq<string>, outcomes: seq<Outcome>, mountBase: string, extractBase: string, k: nat, i: nat)
    requires |outcomes| <= |targets| && BasesApart(mountBase, extractBase)
    requires k < i < |PreparedOf(targets, outcomes, mountBase, extractBase)|
    ensures var prepared := PreparedOf(targets, outcomes, mountBase, extractBase);
            && !HasPrefix(prepared[k].dir, prepared[i].dir + "/")
            && (HasPrefix(prepared[i].dir, prepared[k].dir) <==>
                NumberedBefore(prepared, targets, outcomes, mountBase, extractBase, k, i))
  {
    var prepared := PreparedOf(targets, outcomes, mountBase, extractBase);
    PreparedDirsDiffer(targets, outcomes, mountBase, extractBase);
    var m := PreparedOrigin(targets, outcomes, mountBase, extractBase, k);
    var n := PreparedOrigin(targets, outcomes, mountBase, extractBase, i);
    SlotPrefix(BaseOf(outcomes, m, mountBase, extractBase), m, BaseOf(outcomes, n, mountBase, extractBase), n);
    SlotNotInside(BaseOf(outcomes, n, mountBase, extractBase), n, BaseOf(outcomes, m, mountBase, extractBase), m);
    forall m': nat, n': nat |
      && PreparedFrom(prepared[k], targets, outcomes, m', mountBase, extractBase)
      && PreparedFrom(prepared[i], targets, outcomes, n', mountBase, extractBase)
      ensures m' == m && n' == n
    {
      if m' != m {
        SlotDirsDiffer(BaseOf(outcomes, m, mountBase, extractBase), m, BaseOf(outcomes, m', mountBase, extractBase), m');
      }
      if n' != n {
        SlotDirsDiffer(BaseOf(outcomes, n, mountBase, extractBase), n, BaseOf(outcomes, n', mountBase, extractBase), n');
      }
    }
  }

  /**
   For the images a scan prepares: a finding inside image number `i` gets its label back exactly
   when no earlier image under the same base has a number whose decimal digits begin those of
   its own, as 1 begins 10.
   */
  lemma ScanLabelsInvert(targets: seq<string>, outcomes: seq<Outcome>, mountBase: string, extractBase: string, i: nat, rel: string)
    requires |outcomes| <= |targets| && BasesApart(mountBase, extractBase)
    requires i < |PreparedOf(targets, outcomes, mountBase, extractBase)|
    requires var prepared := PreparedOf(targets, outcomes, mountBase, extractBase);
             Clear(Inside(prepared[i], rel), prepared)
    ensures var prepared := PreparedOf(targets, outcomes, mountBase, extractBase);
            Relabelled(Inside(prepared[i], rel), prepared) == Label(prepared[i], rel) <==>
            forall k: nat :: k < i ==> !NumberedBefore(prepared, targets, outcomes, mountBase, extractBase, k, i)
  {
    var prepared := PreparedOf(targets, outcomes, mountBase, extractBase);
    PreparedDirsDiffer(targets, outcomes, mountBase, extractBase);
    var n := PreparedOrigin(targets, outcomes, mountBase, extractBase, i);
    SlotDirShape(BaseOf(outcomes, n, mountBase, extractBase), n);
    forall k: nat | k < i
      ensures !HasPrefix(prepared[k].dir, prepared[i].dir + "/")
      ensures HasPrefix(prepared[i].dir, prepared[k].dir) <==>
              NumberedBefore(prepared, targets, outcomes, mountBase, extractBase, k, i)
    {
      PrefixMeansNumber(targets, outcomes, mountBase, extractBase, k, i);
    }
    RelabelInverts(prepared, i, rel);
  }

  /** With at most ten targets every label comes back. */
  lemma TenTargetsAlwaysInvert(targets: seq<string>, outcomes: seq<Outcome>, mountBase: string, extractBase: string,
                               i: nat, rel: string)
    requires |outcomes| <= |targets| <= 10 && BasesApart(mountBase, extractBase)
    requires i < |PreparedOf(targets, outcomes, mountBase, extractBase)|
    requires var prepared := PreparedOf(targets, outcomes, mountBase, extractBase);
             Clear(Inside(prepared[i], rel), prepared)
    ensures var prepared := PreparedOf(targets, outcomes, mountBase, extractBase);
            Relabelled(Inside(prepared[i], rel), prepared) == Label(prepared[i], rel)
  {
    var prepared := PreparedOf(targets, outcomes, mountBase, extractBase);
    forall k: nat | k < i
      ensures !NumberedBefore(prepared, targets, outcomes, mountBase, extractBase, k, i)
    {
      forall m: nat, n: nat | m < 10 && n < 10 && HasPrefix(Itoa(n), Itoa(m))
        ensures m == n
      {
        assert |Itoa(m)| == 1 && |Itoa(n)| == 1;
        assert Itoa(m) == Itoa(n);
        ItoaIsInjective(m, n);
      }
    }
    ScanLabelsInvert(targets, outcomes, mountBase, extractBase, i, rel);
  }

  /** Under any base, the image in slot 1 takes over the findings inside the image in slot 10. */
  lemma TenthImageMislabelled(base: string, one: PreparedImage, ten: PreparedImage, rel: string)
    requires one.dir == SlotDir(base, 1) && ten.dir == SlotDir(base, 10)
    requires Clear(Inside(ten, rel), [one, ten])
    ensures Relabelled(Inside(ten, rel), [one, ten]) == one.image + "0" + "/" + rel != Label(ten, rel)
  {
    var s := Inside(ten, rel);
    SlotDirShape(base, 1);
    SlotDirShape(base, 10);
    assert Itoa(10) == Itoa(1) + "0";
    assert ten.dir == one.dir + "0";
    ShorterDirMislabels(ten, one, rel);
    RewrittenByShorter(one, "0", rel);
    FirstPrefixWins(s, [one, ten]);
    assert FirstPrefix(s, [one, ten]) == Some(0);
  }

  lemma OnlyOneStart(s: string, dir: string)
    requires |dir| >= 2 && forall at :: 0 < at < |s| - 1 ==> s[at] != dir[0] || s[at + 1] != dir[1]
    ensures OnlyAtStart(s, dir)
  {
    forall at: nat | at + |dir| <= |s|
      ensures OccursAt(s, dir, at) ==> at == 0
    {
      assert s[at..at + |dir|][0] == s[at] && s[at..at + |dir|][1] == s[at + 1];
    }
  }

  lemma BeginsNowhere(image: string, dir: string)
    requires |dir| >= 2 && |image| >= 2 && image[1] != dir[1]
    requires forall at :: 0 < at < |image| ==> image[at] != dir[0]
    ensures !BeginsIn(image, dir)
  {
    forall at: nat | at < |image|
      ensures !Agree(image[at..], dir)
    {
      assert image[at..][0] == image[at];
      if at == 0 {
        assert image[at..][1] == image[1];
      }
    }
  }

  /** Such texts exist: a finding under the base "/m", whose images have no "/" further in. */
  lemma TenImagesCanBeClear(one: PreparedImage, ten: PreparedImage, s: string)
    requires one == PreparedImage("/a.iso", "/m/1", false) && ten == PreparedImage("/b.iso", "/m/10", false)
    requires s == "/m/10/x"
    ensures s == Inside(ten, "x") && Clear(s, [one, ten])
  {
    OnlyOneStart(s, one.dir);
    OnlyOneStart(s, ten.dir);
    BeginsNowhere(one.image, one.dir);
    BeginsNowhere(one.image, ten.dir);
    BeginsNowhere(ten.image, one.dir);
    BeginsNowhere(ten.image, ten.dir);
  }
}
