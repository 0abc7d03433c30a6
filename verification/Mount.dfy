/**
 Expanding disk images before a scan: which targets are images, how the target list is rewritten
 under arbitrary mount and extraction outcomes, that cleaning up returns the mount table to what
 it was, and what is unmounted at startup.
 */
module Mount {
  import opened Text
  import opened Paths

  datatype MountConfig = MountConfig(enabled: bool, extensions: seq<string>, extractDir: string)

  // ----------------------------------------------------------- image extensions

  /** An extension trimmed, in lower case and with a leading dot; blank ones stay blank. */
  function NormalExt(e: string): string {
    var t := ToLower(TrimSpace(e));
    if t == "" || HasPrefix(t, ".") then t else "." + t
  }

  function NormalExts(exts: seq<string>): seq<string> {
    if exts == [] then []
    else
      var front, last := NormalExts(exts[..|exts| - 1]), NormalExt(exts[|exts| - 1]);
      if last == "" then front else front + [last]
  }

  function Sanitized(cfg: MountConfig): MountConfig {
    MountConfig(cfg.enabled, FirstOccurrences(NormalExts(cfg.extensions)), TrimSpace(cfg.extractDir))
  }

  /** Does the path end, in any case, in one of the extensions? */
  predicate IsImage(cfg: MountConfig, p: string) {
    exists e :: e in NormalExts(cfg.extensions) && HasSuffix(ToLower(p), e)
  }

  predicate IsNormalExt(e: string) {
    e != "" && NormalExt(e) == e
  }

  lemma LowerKeepsTrimmed(s: string)
    requires Trimmed(s)
    ensures Trimmed(ToLower(s)) && ToLower(ToLower(s)) == ToLower(s)
  {
  }

  lemma NormalExtIsNormal(e: string)
    ensures NormalExt(e) != "" ==> IsNormalExt(NormalExt(e))
  {
    var t := ToLower(TrimSpace(e));
    TrimSpaceIsTrimmed(e);
    LowerKeepsTrimmed(TrimSpace(e));
    var n := NormalExt(e);
    if n != "" {
      assert Trimmed(n);
      TrimSpaceKeepsTrimmed(n);
      assert ToLower(n) == n by {
        if n != t {
          assert forall i :: 0 < i < |n| ==> n[i] == t[i - 1];
          assert forall i :: 0 <= i < |t| ==> LowerChar(t[i]) == t[i];
        }
      }
    }
  }

  lemma {:induction false} NormalExtsAreNormal(exts: seq<string>)
    ensures forall e :: e in NormalExts(exts) ==> IsNormalExt(e)
  {
    if exts != [] {
      NormalExtsAreNormal(exts[..|exts| - 1]);
      NormalExtIsNormal(exts[|exts| - 1]);
    }
  }

  lemma {:induction false} NormalExtsOfNormal(exts: seq<string>)
    requires forall e :: e in exts ==> IsNormalExt(e)
    ensures NormalExts(exts) == exts
  {
    if exts != [] {
      var front, last := exts[..|exts| - 1], exts[|exts| - 1];
      assert exts == front + [last] && last in exts;
      NormalExtsOfNormal(front);
    }
  }

  lemma {:induction false} FirstOccurrencesOfDistinct(s: seq<string>)
    requires forall i, j :: 0 <= i < j < |s| ==> s[i] != s[j]
    ensures FirstOccurrences(s) == s
  {
    if s != [] {
      FirstOccurrencesOfDistinct(s[..|s| - 1]);
      assert s[..|s| - 1] + [s[|s| - 1]] == s;
    }
  }

  /** Sanitizing changes nothing about which paths are images, and doing it again changes nothing. */
  lemma SanitizingKeepsMeaning(cfg: MountConfig, p: string)
    ensures IsImage(Sanitized(cfg), p) <==> IsImage(cfg, p)
    ensures Sanitized(Sanitized(cfg)) == Sanitized(cfg)
  {
    NormalExtsAreNormal(cfg.extensions);
    NormalExtsOfNormal(Sanitized(cfg).extensions);
    FirstOccurrencesOfDistinct(Sanitized(cfg).extensions);
    TrimSpaceIsTrimmed(cfg.extractDir);
    TrimSpaceKeepsTrimmed(TrimSpace(cfg.extractDir));
  }

  method NormalizedExts(cfg: MountConfig) returns (out: seq<string>)
    ensures out == NormalExts(cfg.extensions)
  {
    out := [];
    for i := 0 to |cfg.extensions|
      invariant out == NormalExts(cfg.extensions[..i])
    {
      assert cfg.extensions[..i + 1][..i] == cfg.extensions[..i];
      var e := ToLower(TrimSpace(cfg.extensions[i]));
      if e == "" {
        continue;
      }
      if !HasPrefix(e, ".") {
        e := "." + e;
      }
      out := out + [e];
    }
    assert cfg.extensions[..|cfg.extensions|] == cfg.extensions;
  }

  method Sanitize(cfg: MountConfig) returns (r: MountConfig)
    ensures r == Sanitized(cfg)
  {
    var seen: set<string> := {};
    var out: seq<string> := [];
    var exts := NormalizedExts(cfg);
    for i := 0 to |exts|
      invariant out == FirstOccurrences(exts[..i])
      invariant forall x :: x in seen <==> x in out
    {
      assert exts[..i + 1][..i] == exts[..i];
      if exts[i] !in seen {
        seen := seen + {exts[i]};
        out := out + [exts[i]];
      }
    }
    assert exts[..|exts|] == exts;
    r := MountConfig(cfg.enabled, out, TrimSpace(cfg.extractDir));
  }

  method AnySuffix(s: string, suffixes: seq<string>) returns (r: bool)
    ensures r <==> exists e :: e in suffixes && HasSuffix(s, e)
  {
    for i := 0 to |suffixes|
      invariant forall j :: 0 <= j < i ==> !HasSuffix(s, suffixes[j])
    {
      if HasSuffix(s, suffixes[i]) {
        return true;
      }
    }
    r := false;
  }

  method CheckImage(cfg: MountConfig, p: string) returns (r: bool)
    ensures r == IsImage(cfg, p)
  {
    var exts := NormalizedExts(cfg);
    r := AnySuffix(ToLower(p), exts);
  }

  // ------------------------------------------------------- expanding the targets

  /** An image that was expanded, the directory with its contents, and whether that is a copy. */
  datatype PreparedImage = PreparedImage(image: string, dir: string, extracted: bool)

  /** What became of a target: left as it is, mounted, or extracted. */
  datatype Outcome = Raw | Mounted | Extracted

  function SlotDir(base: string, i: nat): string {
    JoinPath(base, Itoa(i))
  }

  function PreparedAt(target: string, outcome: Outcome, i: nat, mountBase: string, extractBase: string): PreparedImage
    requires outcome != Raw
  {
    PreparedImage(target, SlotDir(if outcome == Mounted then mountBase else extractBase, i), outcome == Extracted)
  }

  /** The images prepared among the first targets, in order. */
  function PreparedOf(targets: seq<string>, outcomes: seq<Outcome>, mountBase: string, extractBase: string): seq<PreparedImage>
    requires |outcomes| <= |targets|
  {
    if outcomes == [] then []
    else
      var n := |outcomes| - 1;
      var front := PreparedOf(targets, outcomes[..n], mountBase, extractBase);
      if outcomes[n] == Raw then front
      else front + [PreparedAt(targets[n], outcomes[n], n, mountBase, extractBase)]
  }

  /** `path` stands for target number `i`: the target itself or its prepared directory. */
  predicate StandsFor(path: string, targets: seq<string>, outcomes: seq<Outcome>, i: nat, mountBase: string, extractBase: string)
    requires i < |targets| == |outcomes|
  {
    if outcomes[i] == Raw then path == targets[i]
    else path == PreparedAt(targets[i], outcomes[i], i, mountBase, extractBase).dir
  }

  /** One output per target, in order; only images are expanded. */
  ghost predicate Expands(cfg: MountConfig, targets: seq<string>, outcomes: seq<Outcome>, mountBase: string, extractBase: string,
                          paths: seq<string>, prepared: seq<PreparedImage>) {
    && |outcomes| == |targets| == |paths|
    && (forall i :: 0 <= i < |targets| ==> outcomes[i] != Raw ==> IsImage(cfg, targets[i]))
    && (forall i :: 0 <= i < |targets| ==> StandsFor(paths[i], targets, outcomes, i, mountBase, extractBase))
    && prepared == PreparedOf(targets, outcomes, mountBase, extractBase)
  }

  lemma ItoaIsInjective(i: nat, j: nat)
    ensures Itoa(i) == Itoa(j) ==> i == j
  {
    if Itoa(i) == Itoa(j) {
      assert DecimalValue(Itoa(i)) == DecimalValue(Itoa(j));
    }
  }

  lemma ItoaIsSegment(i: nat)
    ensures IsSegment(Itoa(i))
  {
    var s := Itoa(i);
    assert IsDigit(s[0]);
  }

  /** Directories of different targets differ, whatever the bases. */
  lemma SlotDirsDiffer(a: string, i: nat, b: string, j: nat)
    requires i != j
    ensures SlotDir(a, i) != SlotDir(b, j)
  {
    ItoaIsSegment(i);
    ItoaIsSegment(j);
    ItoaIsInjective(i, j);
    JoinPathAddsName(a, Itoa(i));
    JoinPathAddsName(b, Itoa(j));
    SameLast(Parts(a), Itoa(i), Parts(b), Itoa(j));
  }

  lemma SameLast(p: seq<string>, x: string, q: seq<string>, y: string)
    ensures p + [x] == q + [y] ==> p == q && x == y
  {
    assert (p + [x])[|p|] == x && (q + [y])[|q|] == y;
    assert (p + [x])[..|p|] == p && (q + [y])[..|q|] == q;
  }

  predicate DistinctDirs(prepared: seq<PreparedImage>) {
    forall i, j :: 0 <= i < j < |prepared| ==> prepared[i].dir != prepared[j].dir
  }

  /** The prepared image belongs to target number `i`. */
  predicate PreparedFrom(p: PreparedImage, targets: seq<string>, outcomes: seq<Outcome>, i: nat,
                         mountBase: string, extractBase: string) {
    && i < |outcomes| <= |targets| && outcomes[i] != Raw
    && p == PreparedAt(targets[i], outcomes[i], i, mountBase, extractBase)
  }

  /** Every prepared image comes from a target. */
  lemma {:induction false} PreparedOrigin(targets: seq<string>, outcomes: seq<Outcome>, mountBase: string, extractBase: string,
                                          k: nat) returns (i: nat)
    requires |outcomes| <= |targets| && k < |PreparedOf(targets, outcomes, mountBase, extractBase)|
    ensures PreparedFrom(PreparedOf(targets, outcomes, mountBase, extractBase)[k], targets, outcomes, i, mountBase, extractBase)
  {
    var n := |outcomes| - 1;
    var front := PreparedOf(targets, outcomes[..n], mountBase, extractBase);
    if k < |front| {
      i := PreparedOrigin(targets, outcomes[..n], mountBase, extractBase, k);
    } else {
      i := n;
    }
  }

  /** No two prepared images share a directory. */
  lemma {:induction false} PreparedDirsDiffer(targets: seq<string>, outcomes: seq<Outcome>, mountBase: string, extractBase: string)
    requires |outcomes| <= |targets|
    ensures DistinctDirs(PreparedOf(targets, outcomes, mountBase, extractBase))
  {
    if outcomes != [] {
      var n := |outcomes| - 1;
      var front := PreparedOf(targets, outcomes[..n], mountBase, extractBase);
      PreparedDirsDiffer(targets, outcomes[..n], mountBase, extractBase);
      if outcomes[n] != Raw {
        var last := PreparedAt(targets[n], outcomes[n], n, mountBase, extractBase);
        forall k | 0 <= k < |front|
          ensures front[k].dir != last.dir
        {
          var i := PreparedOrigin(targets, outcomes[..n], mountBase, extractBase, k);
          SlotDirsDiffer(if outcomes[i] == Mounted then mountBase else extractBase, i,
                         if outcomes[n] == Mounted then mountBase else extractBase, n);
        }
      }
    }
  }

  /** Each output is the target itself or the directory of a recorded prepared image for it. */
  lemma OutputsAreTargetsOrPrepared(cfg: MountConfig, targets: seq<string>, outcomes: seq<Outcome>, mountBase: string,
                                    extractBase: string, paths: seq<string>, prepared: seq<PreparedImage>, i: nat)
    requires Expands(cfg, targets, outcomes, mountBase, extractBase, paths, prepared) && i < |targets|
    ensures paths[i] == targets[i] ||
            (IsImage(cfg, targets[i]) && exists p :: p in prepared && p.image == targets[i] && p.dir == paths[i])
  {
    if outcomes[i] != Raw {
      assert outcomes[..|outcomes|] == outcomes;
      PreparedIsRecorded(targets, outcomes, mountBase, extractBase, i);
      assert PreparedAt(targets[i], outcomes[i], i, mountBase, extractBase) in prepared;
    }
  }

  lemma {:induction false} PreparedIsRecorded(targets: seq<string>, outcomes: seq<Outcome>, mountBase: string,
                                              extractBase: string, i: nat)
    requires i < |outcomes| <= |targets| && outcomes[i] != Raw
    ensures PreparedAt(targets[i], outcomes[i], i, mountBase, extractBase) in
            PreparedOf(targets, outcomes, mountBase, extractBase)
  {
    var n := |outcomes| - 1;
    if i < n {
      PreparedIsRecorded(targets, outcomes[..n], mountBase, extractBase, i);
    }
  }

  // ------------------------------------------------------------- the mount table

  /** For every mount point the stack of what is mounted there, the latest last. */
  type Mounts = map<string, seq<string>>

  function Stack(m: Mounts, dir: string): seq<string> {
    if dir in m then m[dir] else []
  }

  ghost predicate SameMounts(a: Mounts, b: Mounts) {
    forall dir :: Stack(a, dir) == Stack(b, dir)
  }

  /** What the prepared images from number `from` on have on top of mount point `dir`. */
  function Layer(prepared: seq<PreparedImage>, from: nat, dir: string): seq<string>
    requires from <= |prepared|
    decreases |prepared| - from
  {
    if from == |prepared| then []
    else if prepared[from].dir == dir && !prepared[from].extracted then
      [prepared[from].image] + Layer(prepared, from + 1, dir)
    else Layer(prepared, from + 1, dir)
  }

  lemma {:induction false} LayerOfOther(prepared: seq<PreparedImage>, from: nat, dir: string)
    requires from <= |prepared| && forall k :: from <= k < |prepared| ==> prepared[k].dir != dir
    ensures Layer(prepared, from, dir) == []
    decreases |prepared| - from
  {
    if from < |prepared| {
      LayerOfOther(prepared, from + 1, dir);
    }
  }

  lemma {:induction false} LayerOfAppend(prepared: seq<PreparedImage>, last: PreparedImage, from: nat, dir: string)
    requires from <= |prepared|
    ensures Layer(prepared + [last], from, dir) ==
            if last.dir == dir && !last.extracted then Layer(prepared, from, dir) + [last.image] else Layer(prepared, from, dir)
    decreases |prepared| - from
  {
    var all := prepared + [last];
    if from < |prepared| {
      assert all[from] == prepared[from];
      LayerOfAppend(prepared, last, from + 1, dir);
      var top, rest := [prepared[from].image], Layer(prepared, from + 1, dir);
      assert top + (rest + [last.image]) == (top + rest) + [last.image];
    } else {
      assert all[from] == last && Layer(prepared, from, dir) == Layer(all, from + 1, dir) == [];
    }
  }

  /** The mount table has exactly the prepared images from number `from` on, over `base`. */
  ghost predicate Over(mounts: Mounts, base: Mounts, prepared: seq<PreparedImage>, from: nat)
    requires from <= |prepared|
  {
    forall dir :: Stack(mounts, dir) == Stack(base, dir) + Layer(prepared, from, dir)
  }

  /** What removing a directory tree finds mounted. */
  datatype Removal = Removal(dir: string, mounts: Mounts)

  function BaseRemovals(mountBase: string, extractBase: string, mounts: Mounts): seq<Removal> {
    if extractBase == mountBase then [Removal(mountBase, mounts)]
    else [Removal(mountBase, mounts), Removal(extractBase, mounts)]
  }

  /** The directories of the extracted images. */
  function CopyDirs(prepared: seq<PreparedImage>): set<string> {
    set p | p in prepared && p.extracted :: p.dir
  }

  /** Every mount point is as in one table or as in the other. */
  ghost predicate EitherWay(mounts: Mounts, a: Mounts, b: Mounts) {
    forall dir :: Stack(mounts, dir) == Stack(a, dir) || Stack(mounts, dir) == Stack(b, dir)
  }

  datatype Cleanup = Nothing | Undo(prepared: seq<PreparedImage>, mountBase: string, extractBase: string)

  // --------------------------------------------------------- leftovers at startup

  predicate UnderBase(dir: string, base: string) {
    HasPrefix(dir, TrimRight(base, '/') + "/")
  }

  /** How many of the bases lie over a mount point. */
  function BasesOver(bases: seq<string>, dir: string): nat {
    if bases == [] then 0
    else BasesOver(bases[..|bases| - 1], dir) + if UnderBase(dir, bases[|bases| - 1]) then 1 else 0
  }

  predicate Names(line: string, dir: string) {
    |Fields(line)| >= 2 && Fields(line)[1] == dir
  }

  /** How many lines of the listing name a mount point. */
  function LinesNaming(lines: seq<string>, dir: string): nat {
    if lines == [] then 0
    else LinesNaming(lines[..|lines| - 1], dir) + if Names(lines[|lines| - 1], dir) then 1 else 0
  }

  /** How often a mount point is unmounted: once per line naming it and base over it. */
  function Hits(lines: seq<string>, bases: seq<string>, dir: string): nat {
    if lines == [] then 0
    else Hits(lines[..|lines| - 1], bases, dir) + if Names(lines[|lines| - 1], dir) then BasesOver(bases, dir) else 0
  }

  function Popped(stack: seq<string>, n: nat): seq<string> {
    if n >= |stack| then [] else stack[..|stack| - n]
  }

  /** Every mount point has lost as many layers as it was hit. */
  ghost predicate Left(mounts: Mounts, start: Mounts, lines: seq<string>, bases: seq<string>) {
    forall dir :: Stack(mounts, dir) == Popped(Stack(start, dir), Hits(lines, bases, dir))
  }

  /** One line of the listing: the mount point it names, if any, loses a layer for every base over it. */
  lemma LeftStep(before: Mounts, after: Mounts, start: Mounts, seen: seq<string>, line: string, bases: seq<string>)
    requires Left(before, start, seen, bases)
    requires forall dir :: Stack(after, dir) ==
                           (if Names(line, dir) then Popped(Stack(before, dir), BasesOver(bases, dir)) else Stack(before, dir))
    ensures Left(after, start, seen + [line], bases)
  {
    assert (seen + [line])[..|seen|] == seen;
    forall dir
      ensures Stack(after, dir) == Popped(Stack(start, dir), Hits(seen + [line], bases, dir))
    {
      PoppedTwice(Stack(start, dir), Hits(seen, bases, dir), BasesOver(bases, dir));
    }
  }

  lemma {:induction false} HitsBounds(lines: seq<string>, bases: seq<string>, dir: string)
    ensures BasesOver(bases, dir) == 0 ==> Hits(lines, bases, dir) == 0
    ensures BasesOver(bases, dir) > 0 ==> Hits(lines, bases, dir) >= LinesNaming(lines, dir)
  {
    if lines != [] {
      HitsBounds(lines[..|lines| - 1], bases, dir);
    }
  }

  lemma {:induction false} BasesOverPositive(bases: seq<string>, dir: string)
    ensures BasesOver(bases, dir) > 0 <==> exists base :: base in bases && UnderBase(dir, base)
  {
    if bases != [] {
      var front, last := bases[..|bases| - 1], bases[|bases| - 1];
      BasesOverPositive(front, dir);
      assert bases == front + [last];
      assert UnderBase(dir, last) ==> last in bases;
    }
  }

  /** How the kernel writes a character of a mount point. */
  function EscapeChar(c: char): string {
    match c
    case ' ' => "\\040"
    case '\t' => "\\011"
    case '\n' => "\\012"
    case '\\' => "\\134"
    case _ => [c]
  }

  function Escape(dir: string): string {
    if dir == "" then "" else EscapeChar(dir[0]) + Escape(dir[1..])
  }

  /** A mount point the kernel writes as it is. */
  predicate Plain(dir: string) {
    ' ' !in dir && '\t' !in dir && '\n' !in dir && '\\' !in dir
  }

  lemma {:induction false} PlainIsUnescaped(dir: string)
    requires Plain(dir)
    ensures Escape(dir) == dir
  {
    if dir != "" {
      PlainIsUnescaped(dir[1..]);
      assert [dir[0]] + dir[1..] == dir;
    }
  }

  lemma {:induction false} EscapedHasNoBlank(dir: string)
    ensures ' ' !in Escape(dir) && '\t' !in Escape(dir) && '\n' !in Escape(dir)
  {
    if dir != "" {
      EscapedHasNoBlank(dir[1..]);
    }
  }

  /** The listing names every mount point, escaped, once for each layer, and nothing else. */
  ghost predicate Shows(lines: seq<string>, mounts: Mounts) {
    && (forall dir :: LinesNaming(lines, Escape(dir)) == |Stack(mounts, dir)|)
    && (forall name :: (forall dir :: Escape(dir) != name) ==> LinesNaming(lines, name) == 0)
  }

  lemma OneMore(n: nat, b: nat)
    ensures (n + 1) * b == n * b + b
  {
  }

  lemma {:induction false} HitsExactly(lines: seq<string>, bases: seq<string>, dir: string)
    ensures Hits(lines, bases, dir) == LinesNaming(lines, dir) * BasesOver(bases, dir)
  {
    if lines != [] {
      var front := lines[..|lines| - 1];
      HitsExactly(front, bases, dir);
      OneMore(LinesNaming(front, dir), BasesOver(bases, dir));
    }
  }

  lemma LeftoverAt(before: Mounts, after: Mounts, lines: seq<string>, bases: seq<string>, dir: string)
    requires Shows(lines, before) && Left(after, before, lines, bases)
    ensures Plain(dir) ==>
              Stack(after, dir) == if exists base :: base in bases && UnderBase(dir, base) then [] else Stack(before, dir)
    ensures ' ' in dir || '\t' in dir || '\n' in dir ==> Stack(after, dir) == Stack(before, dir)
  {
    HitsExactly(lines, bases, dir);
    BasesOverPositive(bases, dir);
    HitsBounds(lines, bases, dir);
    if Plain(dir) {
      PlainIsUnescaped(dir);
    } else if ' ' in dir || '\t' in dir || '\n' in dir {
      forall d
        ensures Escape(d) != dir
      {
        EscapedHasNoBlank(d);
      }
    }
  }

  /**
   When the kernel's listing shows the mount table, startup leaves nothing mounted under any of the
   bases at a mount point that is written as it is, and every other such mount point alone. A mount
   point with a blank is never unmounted, wherever it lies.
   */
  lemma LeftoversAreGone(before: Mounts, after: Mounts, lines: seq<string>, bases: seq<string>)
    requires Shows(lines, before) && Left(after, before, lines, bases)
    ensures forall dir :: Plain(dir) ==>
              Stack(after, dir) == if exists base :: base in bases && UnderBase(dir, base) then [] else Stack(before, dir)
    ensures forall dir :: ' ' in dir || '\t' in dir || '\n' in dir ==> Stack(after, dir) == Stack(before, dir)
  {
    forall dir
      ensures Plain(dir) ==>
                Stack(after, dir) == if exists base :: base in bases && UnderBase(dir, base) then [] else Stack(before, dir)
      ensures ' ' in dir || '\t' in dir || '\n' in dir ==> Stack(after, dir) == Stack(before, dir)
    {
      LeftoverAt(before, after, lines, bases, dir);
    }
  }

  /** So a leftover of a server whose data directory has a blank in its name stays mounted for good. */
  lemma BlankLeftoverStays(before: Mounts, after: Mounts, lines: seq<string>, base: string, name: string)
    requires Shows(lines, before) && Left(after, before, lines, [base]) && ' ' in base
    requires Stack(before, base + "/" + name) != []
    ensures Stack(after, base + "/" + name) == Stack(before, base + "/" + name) != []
  {
    LeftoverAt(before, after, lines, [base], base + "/" + name);
  }

  // ------------------------------------------------------------------ the manager

  /** `mount -t` values to try, in order. */
  const FS_TYPES := ["", "udf", "iso9660"]

  /**
   Mounting, extracting and unmounting may fail at any time. A failed mount leaves nothing
   behind; `lazyWorks` says that a lazy unmount detaches whatever is mounted.
   */
  class ImageManager {
    const lazyWorks: bool
    var mounts: Mounts
    ghost var removals: seq<Removal>

    constructor (lazyWorks: bool, mounts: Mounts)
      ensures this.lazyWorks == lazyWorks && this.mounts == mounts && removals == []
    {
      this.lazyWorks, this.mounts, removals := lazyWorks, mounts, [];
    }

    method RunMount(fsType: string, image: string, dir: string) returns (ok: bool)
      modifies this`mounts
      ensures mounts == if ok then old(mounts)[dir := Stack(old(mounts), dir) + [image]] else old(mounts)
    {
      ok := *;
      if ok {
        mounts := mounts[dir := Stack(mounts, dir) + [image]];
      }
    }

    method RunUmount(dir: string, detach: bool) returns (ok: bool)
      modifies this`mounts
      ensures Stack(old(mounts), dir) == [] ==> !ok
      ensures detach && lazyWorks && Stack(old(mounts), dir) != [] ==> ok
      ensures mounts == if ok then old(mounts)[dir := Popped(Stack(old(mounts), dir), 1)] else old(mounts)
    {
      var busy: bool := *;
      ok := Stack(mounts, dir) != [] && ((detach && lazyWorks) || !busy);
      if ok {
        mounts := mounts[dir := Popped(Stack(mounts, dir), 1)];
      }
    }

    method RemoveAll(dir: string)
      modifies this`removals
      ensures removals == old(removals) + [Removal(dir, mounts)]
    {
      removals := removals + [Removal(dir, mounts)];
    }

    /** Tries each file-system type until one mounts. */
    method MountImage(image: string, dir: string) returns (ok: bool)
      modifies this`mounts
      ensures mounts == if ok then old(mounts)[dir := Stack(old(mounts), dir) + [image]] else old(mounts)
    {
      for i := 0 to |FS_TYPES|
        invariant mounts == old(mounts)
      {
        ok := RunMount(FS_TYPES[i], image, dir);
        if ok {
          return;
        }
      }
      ok := false;
    }

    /** Unmounts, lazily if need be. */
    method Unmount(dir: string)
      modifies this`mounts
      ensures forall d :: d != dir ==> Stack(mounts, d) == Stack(old(mounts), d)
      ensures Stack(mounts, dir) in {Stack(old(mounts), dir), Popped(Stack(old(mounts), dir), 1)}
      ensures lazyWorks ==> Stack(mounts, dir) == Popped(Stack(old(mounts), dir), 1)
    {
      var ok := RunUmount(dir, false);
      if !ok {
        ok := RunUmount(dir, true);
      }
    }

    /** One target of PrepareImages: mounted if it is an image, else extracted, else left as it is. */
    method PrepareOne(target: string, i: nat, cfg: MountConfig, mountBase: string, extractBase: string)
      returns (outcome: Outcome, path: string)
      modifies this
      ensures outcome != Raw ==> IsImage(cfg, target)
      ensures path == if outcome == Raw then target else PreparedAt(target, outcome, i, mountBase, extractBase).dir
      ensures mounts == if outcome == Mounted then old(mounts)[path := Stack(old(mounts), path) + [target]] else old(mounts)
    {
      var image := CheckImage(cfg, target);
      if !image {
        return Raw, target;
      }
      path := SlotDir(mountBase, i);
      var made: bool := *;
      if made {
        var ok := MountImage(target, path);
        if ok {
          return Mounted, path;
        }
      }
      path := SlotDir(extractBase, i);
      var unpacked: bool := *;
      if !unpacked {
        RemoveAll(path);
        return Raw, target;
      }
      outcome := Extracted;
    }

    method PrepareImages(targets: seq<string>, cfg: MountConfig, mountBase: string, extractBase: string)
      returns (paths: seq<string>, prepared: seq<PreparedImage>, cleanup: Cleanup, ghost outcomes: seq<Outcome>)
      modifies this
      ensures !cfg.enabled ==> paths == targets && prepared == [] && cleanup == Nothing && mounts == old(mounts)
      ensures cfg.enabled ==> && Expands(cfg, targets, outcomes, mountBase, extractBase, paths, prepared)
                              && cleanup == Undo(prepared, mountBase, extractBase)
                              && Over(mounts, old(mounts), prepared, 0)
    {
      prepared, cleanup, outcomes := [], Nothing, [];
      if !cfg.enabled {
        paths := targets;
        return;
      }
      var out: seq<string> := [];
      for i := 0 to |targets|
        invariant |outcomes| == i
        invariant Expands(cfg, targets[..i], outcomes, mountBase, extractBase, out, prepared)
        invariant Over(mounts, old(mounts), prepared, 0)
      {
        ghost var before := mounts;
        var outcome, path := PrepareOne(targets[i], i, cfg, mountBase, extractBase);
        ExpandsStep(cfg, targets, outcomes, mountBase, extractBase, out, prepared, outcome);
        if outcome != Raw {
          var p := PreparedImage(targets[i], path, outcome == Extracted);
          LayeredOver(before, old(mounts), prepared, p);
          prepared := prepared + [p];
        }
        out, outcomes := out + [path], outcomes + [outcome];
      }
      assert targets[..|targets|] == targets;
      paths, cleanup := out, Undo(prepared, mountBase, extractBase);
    }

    /** The loop of the cleanup function: unmount the mounts and delete the copies. */
    method UndoAll(done: seq<PreparedImage>, ghost base: Mounts) returns (ghost copies: seq<Removal>)
      requires DistinctDirs(done) && Over(mounts, base, done, 0)
      modifies this
      ensures lazyWorks ==> SameMounts(mounts, base)
      ensures EitherWay(mounts, base, old(mounts))
      ensures removals == old(removals) + copies
      ensures forall r :: r in copies ==> r.dir in CopyDirs(done)
    {
      copies := [];
      for i := 0 to |done|
        invariant lazyWorks ==> Over(mounts, base, done, i)
        invariant UndoneTo(mounts, base, old(mounts), done, i)
        invariant removals == old(removals) + copies
        invariant forall r :: r in copies ==> r.dir in CopyDirs(done)
      {
        ghost var before := mounts;
        if done[i].extracted {
          RemoveAll(done[i].dir);
          copies := copies + [Removal(done[i].dir, mounts)];
        } else {
          Unmount(done[i].dir);
        }
        UndoneStep(before, mounts, base, old(mounts), done, i);
        if lazyWorks {
          OverStep(before, mounts, base, done, i);
        }
      }
    }

    /** Undoes every preparation, and only then removes the base directories. */
    method RunCleanup(cleanup: Cleanup, ghost base: Mounts) returns (ghost copies: seq<Removal>)
      requires cleanup.Undo? ==> DistinctDirs(cleanup.prepared) && Over(mounts, base, cleanup.prepared, 0)
      modifies this
      ensures cleanup == Nothing ==> mounts == old(mounts) && removals == old(removals)
      ensures cleanup.Undo? && lazyWorks ==> SameMounts(mounts, base)
      ensures cleanup.Undo? ==> EitherWay(mounts, base, old(mounts))
      ensures cleanup.Undo? ==>
                && removals == old(removals) + copies + BaseRemovals(cleanup.mountBase, cleanup.extractBase, mounts)
                && forall r :: r in copies ==> r.dir in CopyDirs(cleanup.prepared)
    {
      copies := [];
      if cleanup == Nothing {
        return;
      }
      copies := UndoAll(cleanup.prepared, base);
      RemoveAll(cleanup.mountBase);
      if cleanup.extractBase != cleanup.mountBase {
        RemoveAll(cleanup.extractBase);
      }
    }

    /** What a scan does around the scanner: prepare the images and clean up at the end. */
    method WithImages(targets: seq<string>, cfg: MountConfig, mountBase: string, extractBase: string)
      returns (paths: seq<string>)
      modifies this
      ensures |paths| == |targets|
      ensures lazyWorks ==> SameMounts(mounts, old(mounts))
    {
      var prepared, cleanup;
      ghost var outcomes;
      paths, prepared, cleanup, outcomes := PrepareImages(targets, cfg, mountBase, extractBase);
      if cfg.enabled {
        PreparedDirsDiffer(targets, outcomes, mountBase, extractBase);
      }
      ghost var copies := RunCleanup(cleanup, old(mounts));
    }

    /** Unmounts whatever a previous process left under the base directories, and removes these. */
    method UnmountLeftovers(listing: string, readable: bool, bases: seq<string>)
      modifies this
      ensures lazyWorks ==> Left(mounts, old(mounts), if readable then Split(listing, '\n') else [], bases)
      ensures forall dir :: BasesOver(bases, dir) == 0 ==> Stack(mounts, dir) == Stack(old(mounts), dir)
      ensures forall base :: base in bases && base != "" ==> Removal(base, mounts) in removals
    {
      if readable {
        UnmountListed(Split(listing, '\n'), bases);
      }
      ghost var final := mounts;
      for i := 0 to |bases|
        invariant mounts == final
        invariant forall j :: 0 <= j < i && bases[j] != "" ==> Removal(bases[j], mounts) in removals
      {
        if bases[i] != "" {
          RemoveAll(bases[i]);
        }
      }
    }

    method UnmountListed(lines: seq<string>, bases: seq<string>)
      modifies this`mounts
      ensures lazyWorks ==> Left(mounts, old(mounts), lines, bases)
      ensures forall dir :: BasesOver(bases, dir) == 0 ==> Stack(mounts, dir) == Stack(old(mounts), dir)
    {
      for i := 0 to |lines|
        invariant lazyWorks ==> Left(mounts, old(mounts), lines[..i], bases)
        invariant forall dir :: BasesOver(bases, dir) == 0 ==> Stack(mounts, dir) == Stack(old(mounts), dir)
      {
        assert lines[..i + 1] == lines[..i] + [lines[i]];
        ghost var before := mounts;
        var fields := Fields(lines[i]);
        if |fields| >= 2 {
          UnmountPoint(fields[1], bases);
        }
        if lazyWorks {
          LeftStep(before, mounts, old(mounts), lines[..i], lines[i], bases);
        }
      }
      assert lines[..|lines|] == lines;
    }

    /** The inner loop of UnmountLeftovers: one mount point against all bases. */
    method UnmountPoint(point: string, bases: seq<string>)
      modifies this`mounts
      ensures lazyWorks ==> Stack(mounts, point) == Popped(Stack(old(mounts), point), BasesOver(bases, point))
      ensures BasesOver(bases, point) == 0 ==> Stack(mounts, point) == Stack(old(mounts), point)
      ensures forall dir :: dir != point ==> Stack(mounts, dir) == Stack(old(mounts), dir)
    {
      for i := 0 to |bases|
        invariant lazyWorks ==> Stack(mounts, point) == Popped(Stack(old(mounts), point), BasesOver(bases[..i], point))
        invariant BasesOver(bases[..i], point) == 0 ==> Stack(mounts, point) == Stack(old(mounts), point)
        invariant forall dir :: dir != point ==> Stack(mounts, dir) == Stack(old(mounts), dir)
      {
        BasesOverStep(bases, i, point);
        PoppedTwice(Stack(old(mounts), point), BasesOver(bases[..i], point), 1);
        if HasPrefix(point, TrimRight(bases[i], '/') + "/") {
          Unmount(point);
        }
      }
      assert bases[..|bases|] == bases;
    }
  }

  lemma BasesOverStep(bases: seq<string>, i: nat, dir: string)
    requires i < |bases|
    ensures BasesOver(bases[..i + 1], dir) == BasesOver(bases[..i], dir) + if UnderBase(dir, bases[i]) then 1 else 0
  {
    assert bases[..i + 1][..i] == bases[..i];
  }

  lemma PoppedTwice(stack: seq<string>, m: nat, n: nat)
    ensures Popped(Popped(stack, m), n) == Popped(stack, m + n)
  {
  }

  function PathOf(target: string, outcome: Outcome, i: nat, mountBase: string, extractBase: string): string {
    if outcome == Raw then target else PreparedAt(target, outcome, i, mountBase, extractBase).dir
  }

  lemma StandsForStep(targets: seq<string>, outcomes: seq<Outcome>, outcome: Outcome, mountBase: string, extractBase: string,
                      out: seq<string>)
    requires |out| == |outcomes| < |targets|
    requires forall j :: 0 <= j < |out| ==> StandsFor(out[j], targets[..|out|], outcomes, j, mountBase, extractBase)
    ensures var i := |out|;
            var path := PathOf(targets[i], outcome, i, mountBase, extractBase);
            forall j :: 0 <= j < i + 1 ==>
              StandsFor((out + [path])[j], targets[..i + 1], outcomes + [outcome], j, mountBase, extractBase)
  {
    var i := |out|;
    var path := PathOf(targets[i], outcome, i, mountBase, extractBase);
    forall j | 0 <= j < i + 1
      ensures StandsFor((out + [path])[j], targets[..i + 1], outcomes + [outcome], j, mountBase, extractBase)
    {
      if j < i {
        assert StandsFor(out[j], targets[..i], outcomes, j, mountBase, extractBase);
      }
    }
  }

  /** One more target of the loop. */
  lemma ExpandsStep(cfg: MountConfig, targets: seq<string>, outcomes: seq<Outcome>, mountBase: string, extractBase: string,
                    out: seq<string>, prepared: seq<PreparedImage>, outcome: Outcome)
    requires |outcomes| < |targets| && (outcome != Raw ==> IsImage(cfg, targets[|outcomes|]))
    requires Expands(cfg, targets[..|outcomes|], outcomes, mountBase, extractBase, out, prepared)
    ensures var i := |outcomes|;
            Expands(cfg, targets[..i + 1], outcomes + [outcome], mountBase, extractBase,
                    out + [PathOf(targets[i], outcome, i, mountBase, extractBase)],
                    if outcome == Raw then prepared else prepared + [PreparedAt(targets[i], outcome, i, mountBase, extractBase)])
  {
    var i, all := |outcomes|, outcomes + [outcome];
    assert all[..i] == outcomes;
    PreparedOfLonger(targets[..i], targets[..i + 1], outcomes, mountBase, extractBase);
    StandsForStep(targets, outcomes, outcome, mountBase, extractBase, out);
    forall j | 0 <= j < i + 1 && all[j] != Raw
      ensures IsImage(cfg, targets[..i + 1][j])
    {
      if j < i {
        assert targets[..i + 1][j] == targets[..i][j] && all[j] == outcomes[j];
      }
    }
  }

  lemma {:induction false} PreparedOfLonger(a: seq<string>, b: seq<string>, outcomes: seq<Outcome>, mountBase: string, extractBase: string)
    requires |outcomes| <= |a| <= |b| && a == b[..|a|]
    ensures PreparedOf(a, outcomes, mountBase, extractBase) == PreparedOf(b, outcomes, mountBase, extractBase)
  {
    if outcomes != [] {
      PreparedOfLonger(a, b, outcomes[..|outcomes| - 1], mountBase, extractBase);
    }
  }

  /** A fresh mount adds one layer, an extraction none. */
  lemma LayeredOver(mounts: Mounts, base: Mounts, prepared: seq<PreparedImage>, p: PreparedImage)
    requires Over(mounts, base, prepared, 0)
    ensures Over(if p.extracted then mounts else mounts[p.dir := Stack(mounts, p.dir) + [p.image]], base, prepared + [p], 0)
  {
    var after := if p.extracted then mounts else mounts[p.dir := Stack(mounts, p.dir) + [p.image]];
    forall dir
      ensures Stack(after, dir) == Stack(base, dir) + Layer(prepared + [p], 0, dir)
    {
      LayerOfAppend(prepared, p, 0, dir);
      assert Stack(mounts, dir) == Stack(base, dir) + Layer(prepared, 0, dir);
      if p.dir == dir && !p.extracted {
        assert Stack(base, dir) + (Layer(prepared, 0, dir) + [p.image]) == Stack(mounts, dir) + [p.image];
      }
    }
  }

  /** Of a mounted image's directory, popping the top gives the table it started from. */
  lemma TopOfOver(mounts: Mounts, base: Mounts, prepared: seq<PreparedImage>, i: nat)
    requires Over(mounts, base, prepared, 0) && DistinctDirs(prepared) && i < |prepared| && !prepared[i].extracted
    ensures Popped(Stack(mounts, prepared[i].dir), 1) == Stack(base, prepared[i].dir)
  {
    LayerOfOne(prepared, 0, i);
  }

  lemma {:induction false} LayerOfOne(prepared: seq<PreparedImage>, from: nat, i: nat)
    requires DistinctDirs(prepared) && from <= i < |prepared|
    ensures Layer(prepared, from, prepared[i].dir) == if prepared[i].extracted then [] else [prepared[i].image]
    decreases i - from
  {
    if from < i {
      LayerOfOne(prepared, from + 1, i);
    } else {
      LayerOfOther(prepared, i + 1, prepared[i].dir);
    }
  }

  /** After undoing the first images: nothing but their own layers can have changed. */
  ghost predicate UndoneTo(mounts: Mounts, base: Mounts, start: Mounts, prepared: seq<PreparedImage>, i: nat) {
    && EitherWay(mounts, base, start)
    && forall k :: i <= k < |prepared| ==> Stack(mounts, prepared[k].dir) == Stack(start, prepared[k].dir)
  }

  lemma UndoneStep(before: Mounts, after: Mounts, base: Mounts, start: Mounts, prepared: seq<PreparedImage>, i: nat)
    requires i < |prepared| && DistinctDirs(prepared) && Over(start, base, prepared, 0)
    requires UndoneTo(before, base, start, prepared, i)
    requires prepared[i].extracted ==> after == before
    requires forall d :: d != prepared[i].dir ==> Stack(after, d) == Stack(before, d)
    requires var d := prepared[i].dir; Stack(after, d) == Stack(before, d) || Stack(after, d) == Popped(Stack(before, d), 1)
    ensures UndoneTo(after, base, start, prepared, i + 1)
  {
    if !prepared[i].extracted {
      TopOfOver(start, base, prepared, i);
    }
    forall dir
      ensures Stack(after, dir) == Stack(base, dir) || Stack(after, dir) == Stack(start, dir)
    {
    }
  }

  /** Undoing image `i` takes its layer off its own mount point and leaves the others. */
  lemma LayerUndone(stack: seq<string>, prepared: seq<PreparedImage>, i: nat, dir: string)
    requires i < |prepared| && forall k :: i < k < |prepared| ==> prepared[k].dir != prepared[i].dir
    ensures var before, after := stack + Layer(prepared, i, dir), stack + Layer(prepared, i + 1, dir);
            after == if dir == prepared[i].dir && !prepared[i].extracted then Popped(before, 1) else before
  {
    if dir == prepared[i].dir && !prepared[i].extracted {
      LayerOfOther(prepared, i + 1, dir);
      var top := [prepared[i].image];
      assert Layer(prepared, i, dir) == top + [] == top;
      assert Popped(stack + top, 1) == stack == stack + [];
    }
  }

  lemma OverStep(before: Mounts, after: Mounts, base: Mounts, prepared: seq<PreparedImage>, i: nat)
    requires i < |prepared| && DistinctDirs(prepared) && Over(before, base, prepared, i)
    requires forall d :: Stack(after, d) ==
                         (if d == prepared[i].dir && !prepared[i].extracted then Popped(Stack(before, d), 1) else Stack(before, d))
    ensures Over(after, base, prepared, i + 1)
  {
    forall dir
      ensures Stack(after, dir) == Stack(base, dir) + Layer(prepared, i + 1, dir)
    {
      LayerUndone(Stack(base, dir), prepared, i, dir);
    }
  }
}
