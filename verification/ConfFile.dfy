/**
 internal/clamav/config_files.go, the file level: which settings may change, how values
 are validated and cleaned, and how ReadConf, WriteConf and RestoreConfBackup use the files.
 */
module ConfFile {
  import opened Text
  import opened Wrappers
  import opened ConfText

  datatype Kind = StringKind | BoolKind | IntKind | PathKind | SizeKind

  datatype ConfKey = ConfKey(name: string, kind: Kind, repeatable: bool)

  const CLAMD_KEYS: seq<ConfKey> := [
    ConfKey("MaxThreads", IntKind, false),
    ConfKey("MaxFileSize", SizeKind, false),
    ConfKey("MaxScanSize", SizeKind, false),
    ConfKey("LogVerbose", BoolKind, false),
    ConfKey("LogTime", BoolKind, false),
    ConfKey("OnAccessMaxFileSize", SizeKind, false),
    ConfKey("OnAccessPrevention", BoolKind, false),
    ConfKey("OnAccessIncludePath", PathKind, true),
    ConfKey("OnAccessExcludePath", PathKind, true),
    ConfKey("OnAccessExcludeUname", StringKind, true)
  ]

  const FRESHCLAM_KEYS: seq<ConfKey> := [
    ConfKey("Checks", IntKind, false),
    ConfKey("LogVerbose", BoolKind, false),
    ConfKey("NotifyClamd", StringKind, false),
    ConfKey("DatabaseMirror", StringKind, true)
  ]

  datatype ConfError =
    | UnknownConf
    | KeyNotAllowed(name: string)
    | ValueInvalid(name: string)
    | ReadFailed
    | BackupFailed
    | TempFailed
    | ReplaceFailed

  function ConfKeysFor(which: string): Option<seq<ConfKey>> {
    match which
    case "clamd" => Some(CLAMD_KEYS)
    case "freshclam" => Some(FRESHCLAM_KEYS)
    case _ => None
  }

  /** The key with a given name, if it is whitelisted. */
  function FindKey(keys: seq<ConfKey>, name: string): (k: Option<ConfKey>)
    ensures k.Some? ==> k.value in keys && k.value.name == name
    ensures k.None? ==> forall i :: 0 <= i < |keys| ==> keys[i].name != name
  {
    if keys == [] then None
    else if keys[|keys| - 1].name == name then Some(keys[|keys| - 1])
    else FindKey(keys[..|keys| - 1], name)
  }

  // ------------------------------------------------------------------ validation

  const MAX_INT: int := 0x7FFF_FFFF_FFFF_FFFF

  /** `strconv.Atoi` succeeds: an optional sign, digits, and a value that fits 64 bits. */
  predicate IsAtoi(v: string) {
    var signed := v != "" && (v[0] == '+' || v[0] == '-');
    var digits := if signed then v[1..] else v;
    && digits != ""
    && AllDigits(digits)
    && DecimalValue(digits) <= if signed && v[0] == '-' then MAX_INT + 1 else MAX_INT
  }

  /** The regular expression (?i)^\d+[kmg]?$; case folding lets the Kelvin sign stand for k. */
  predicate IsSize(v: string) {
    || (v != "" && AllDigits(v))
    || (|v| > 1 && AllDigits(v[..|v| - 1]) &&
        v[|v| - 1] in {'k', 'K', '\U{212A}', 'm', 'M', 'g', 'G'})
  }

  predicate ValidValue(k: ConfKey, v: string) {
    match k.kind
    case IntKind => IsAtoi(v)
    case SizeKind => IsSize(v)
    case PathKind => HasPrefix(v, "/")
    case BoolKind => true
    case StringKind => true
  }

  predicate ConfValueBool(s: string) {
    ToLower(TrimSpace(s)) in {"yes", "true", "1", "on"}
  }

  function NormalizeConfValue(k: ConfKey, v: string): string {
    if k.kind == BoolKind then (if ConfValueBool(v) then "yes" else "no") else v
  }

  /** The values kept from a request: trimmed, blanks dropped, booleans canonical. */
  function CleanValues(k: ConfKey, vals: seq<string>): seq<string> {
    if vals == [] then []
    else
      var kept := CleanValues(k, vals[..|vals| - 1]);
      var v := TrimSpace(vals[|vals| - 1]);
      if v == "" then kept else kept + [NormalizeConfValue(k, v)]
  }

  predicate AcceptedValues(k: ConfKey, vals: seq<string>) {
    forall i :: 0 <= i < |vals| ==> TrimSpace(vals[i]) == "" || ValidValue(k, TrimSpace(vals[i]))
  }

  ghost predicate Accepted(keys: seq<ConfKey>, updates: map<string, seq<string>>) {
    forall name :: name in updates ==>
      FindKey(keys, name).Some? && AcceptedValues(FindKey(keys, name).value, updates[name])
  }

  ghost function Cleaned(keys: seq<ConfKey>, updates: map<string, seq<string>>): Update
    requires forall name :: name in updates ==> FindKey(keys, name).Some?
  {
    map name | name in updates :: CleanValues(FindKey(keys, name).value, updates[name])
  }

  /** Kinds whose accepted values can never contain a newline. */
  predicate OneLineKind(kind: Kind) {
    kind == IntKind || kind == SizeKind || kind == BoolKind
  }

  /** No newline is left once the ends are trimmed. */
  predicate OneLineValues(vals: seq<string>) {
    forall i :: 0 <= i < |vals| ==> '\n' !in TrimSpace(vals[i])
  }

  lemma {:induction false} CleanValuesAreValues(k: ConfKey, vals: seq<string>)
    ensures AreValues(CleanValues(k, vals))
    ensures OneLineKind(k.kind) && AcceptedValues(k, vals) ==> NoNewlines(CleanValues(k, vals))
  {
    if vals != [] {
      var rest, v := vals[..|vals| - 1], TrimSpace(vals[|vals| - 1]);
      CleanValuesAreValues(k, rest);
      TrimSpaceIsTrimmed(vals[|vals| - 1]);
      assert IsValue("yes") && IsValue("no");
      assert AcceptedValues(k, vals) ==> AcceptedValues(k, rest) && (v == "" || ValidValue(k, v));
      if v != "" && ValidValue(k, v) && OneLineKind(k.kind) {
        OneLineValue(k, v);
      }
    }
  }

  lemma OneLineValue(k: ConfKey, v: string)
    requires ValidValue(k, v) && OneLineKind(k.kind)
    ensures '\n' !in NormalizeConfValue(k, v)
  {
    if k.kind == IntKind {
      assert forall i :: 1 <= i < |v| ==> v[1..][i - 1] == v[i];
    } else if k.kind == SizeKind && !AllDigits(v) {
      assert forall i :: 0 <= i < |v| - 1 ==> v[..|v| - 1][i] == v[i];
    }
  }

  lemma ClamdNames()
    ensures forall i :: 0 <= i < |CLAMD_KEYS| ==> IsKey(CLAMD_KEYS[i].name)
  {
    ClamdLimitNames();
    ClamdLogNames();
    ClamdOnAccessNames();
  }

  lemma ClamdLimitNames()
    ensures IsKey("MaxThreads") && IsKey("MaxFileSize") && IsKey("MaxScanSize") && IsKey("OnAccessMaxFileSize")
  {
  }

  lemma ClamdLogNames()
    ensures IsKey("LogVerbose") && IsKey("LogTime") && IsKey("OnAccessPrevention")
  {
  }

  lemma ClamdOnAccessNames()
    ensures IsKey("OnAccessIncludePath") && IsKey("OnAccessExcludePath") && IsKey("OnAccessExcludeUname")
  {
  }

  lemma FreshclamNames()
    ensures forall i :: 0 <= i < |FRESHCLAM_KEYS| ==> IsKey(FRESHCLAM_KEYS[i].name)
  {
    assert IsKey("Checks") && IsKey("LogVerbose") && IsKey("NotifyClamd") && IsKey("DatabaseMirror");
  }

  /** Every name the whitelists let through can own a line. */
  lemma WhitelistedNamesAreKeys(which: string, name: string)
    requires ConfKeysFor(which).Some? && FindKey(ConfKeysFor(which).value, name).Some?
    ensures IsKey(name)
  {
    var keys := ConfKeysFor(which).value;
    assert keys == CLAMD_KEYS || keys == FRESHCLAM_KEYS;
    ClamdNames();
    FreshclamNames();
    NameInTable(keys, name);
  }

  lemma NameInTable(keys: seq<ConfKey>, name: string)
    requires FindKey(keys, name).Some? && forall i :: 0 <= i < |keys| ==> IsKey(keys[i].name)
    ensures IsKey(name)
  {
  }

  /** Validation and cleaning give WriteConf the update its text surgery relies on. */
  lemma CleanedIsWellFormed(which: string, updates: map<string, seq<string>>)
    requires ConfKeysFor(which).Some? && Accepted(ConfKeysFor(which).value, updates)
    ensures WellFormed(Cleaned(ConfKeysFor(which).value, updates))
    ensures NewlineFree(Cleaned(ConfKeysFor(which).value, updates)) <==>
            forall name :: name in updates && !OneLineKind(FindKey(ConfKeysFor(which).value, name).value.kind) ==>
              OneLineValues(updates[name])
  {
    var keys := ConfKeysFor(which).value;
    var cleaned := Cleaned(keys, updates);
    forall name | name in updates
      ensures IsKey(name) && AreValues(cleaned[name])
      ensures var k := FindKey(keys, name).value;
              NoNewlines(cleaned[name]) <==>
              (OneLineKind(k.kind) || OneLineValues(updates[name]))
    {
      WhitelistedNamesAreKeys(which, name);
      CleanValuesAreValues(FindKey(keys, name).value, updates[name]);
      if !OneLineKind(FindKey(keys, name).value.kind) {
        NewlinesSurviveCleaning(FindKey(keys, name).value, updates[name]);
      }
    }
  }

  lemma {:induction false} NewlinesSurviveCleaning(k: ConfKey, vals: seq<string>)
    requires !OneLineKind(k.kind)
    ensures NoNewlines(CleanValues(k, vals)) <==> OneLineValues(vals)
  {
    if vals != [] {
      var rest, last := vals[..|vals| - 1], vals[|vals| - 1];
      NewlinesSurviveCleaning(k, rest);
      var kept := CleanValues(k, rest);
      assert OneLineValues(vals) <==> OneLineValues(rest) && '\n' !in TrimSpace(last) by {
        assert forall i :: 0 <= i < |rest| ==> vals[i] == rest[i];
      }
      if TrimSpace(last) != "" {
        assert CleanValues(k, vals) == kept + [TrimSpace(last)];
        NoNewlinesOfConcat(kept, [TrimSpace(last)]);
        assert [TrimSpace(last)][0] == TrimSpace(last);
      }
    }
  }

  lemma CleanStep(k: ConfKey, vals: seq<string>, i: nat)
    requires i < |vals|
    ensures var v := TrimSpace(vals[i]);
            CleanValues(k, vals[..i + 1]) ==
              if v == "" then CleanValues(k, vals[..i]) else CleanValues(k, vals[..i]) + [NormalizeConfValue(k, v)]
  {
    assert vals[..i + 1][..i] == vals[..i];
  }

  lemma AcceptedStep(k: ConfKey, vals: seq<string>, i: nat)
    requires i < |vals| && AcceptedValues(k, vals[..i])
    ensures AcceptedValues(k, vals[..i + 1]) <==> TrimSpace(vals[i]) == "" || ValidValue(k, TrimSpace(vals[i]))
    ensures TrimSpace(vals[i]) != "" && !ValidValue(k, TrimSpace(vals[i])) ==> !AcceptedValues(k, vals)
  {
    assert vals[..i + 1] == vals[..i] + [vals[i]];
  }

  /** Checks and cleans the values requested for one key. */
  method CleanOne(k: ConfKey, vals: seq<string>) returns (r: Result<seq<string>, ConfError>)
    ensures r.Ok? <==> AcceptedValues(k, vals)
    ensures r.Ok? ==> r.value == CleanValues(k, vals)
    ensures r.Err? ==> r.error == ValueInvalid(k.name)
  {
    var kept: seq<string> := [];
    for i := 0 to |vals|
      invariant kept == CleanValues(k, vals[..i])
      invariant AcceptedValues(k, vals[..i])
    {
      CleanStep(k, vals, i);
      AcceptedStep(k, vals, i);
      var v := TrimSpace(vals[i]);
      if v != "" {
        if !ValidValue(k, v) {
          return Err(ValueInvalid(k.name));
        }
        kept := kept + [NormalizeConfValue(k, v)];
      }
    }
    assert vals[..|vals|] == vals;
    r := Ok(kept);
  }

  /** Checks and cleans the requested updates, taking the keys in any order. */
  method CleanUpdates(keys: seq<ConfKey>, updates: map<string, seq<string>>) returns (r: Result<Update, ConfError>)
    ensures r.Ok? <==> Accepted(keys, updates)
    ensures r.Ok? ==> r.value == Cleaned(keys, updates)
    ensures r.Err? ==>
              || (r.error.KeyNotAllowed? && r.error.name in updates && FindKey(keys, r.error.name).None?)
              || (r.error.ValueInvalid? && r.error.name in updates && FindKey(keys, r.error.name).Some? &&
                  !AcceptedValues(FindKey(keys, r.error.name).value, updates[r.error.name]))
  {
    var cleaned: Update := map[];
    var names := updates.Keys;
    while names != {}
      invariant names <= updates.Keys && cleaned.Keys == updates.Keys - names
      invariant forall name :: name in cleaned ==>
        && FindKey(keys, name).Some? && AcceptedValues(FindKey(keys, name).value, updates[name])
        && cleaned[name] == CleanValues(FindKey(keys, name).value, updates[name])
      decreases |names|
    {
      var name :| name in names;
      names := names - {name};
      var found := FindKey(keys, name);
      if found.None? {
        return Err(KeyNotAllowed(name));
      }
      var kept := CleanOne(found.value, updates[name]);
      if kept.Err? {
        return Err(kept.error);
      }
      cleaned := cleaned[name := kept.value];
    }
    r := Ok(cleaned);
  }

  // ------------------------------------------------------------------ the two loops

  /** ReadConf's loop: every key's values, in file order. */
  method ReadValues(content: string) returns (values: map<string, seq<string>>)
    ensures forall key :: (if key in values then values[key] else []) == ConfValues(content, key)
  {
    values := map[];
    var lines := Split(content, '\n');
    for i := 0 to |lines|
      invariant forall key :: ConfValues(content, key) == (if key in values then values[key] else []) + ValuesOf(lines[i..], key)
    {
      assert lines[i..][0] == lines[i] && lines[i..][1..] == lines[i + 1..];
      var line := TrimSpace(TrimRight(lines[i], '\r'));
      if line == "" || HasPrefix(line, "#") {
        continue;
      }
      var fields := Fields(line);
      if |fields| < 2 {
        continue;
      }
      var known := if fields[0] in values then values[fields[0]] else [];
      values := values[fields[0] := known + [Join(fields[1..], " ")]];
    }
    assert lines[|lines|..] == [];
  }

  lemma {:induction false} AppendedOfConcat(a: seq<string>, b: seq<string>, update: Update)
    requires forall k :: k in a + b ==> k in update
    ensures (forall k :: k in a ==> k in update) && (forall k :: k in b ==> k in update)
    ensures Appended(a + b, update) == Appended(a, update) + Appended(b, update)
  {
    assert forall k :: k in a || k in b ==> k in a + b;
    if a == [] {
      assert a + b == b;
    } else {
      assert (a + b)[1..] == a[1..] + b;
      AppendedOfConcat(a[1..], b, update);
    }
  }

  /** One round of WriteConf's loop over the file's lines. */
  method RewriteLine(raw: string, cleaned: Update, before: seq<string>, seen: set<string>)
    returns (out: seq<string>, written: set<string>)
    ensures out == before + Emitted(raw, cleaned, seen) && written == Marked(raw, cleaned, seen)
  {
    out, written := before, seen;
    var line := TrimRight(raw, '\r');
    var trimmed := TrimSpace(line);
    var key := "";
    if trimmed != "" && !HasPrefix(trimmed, "#") {
      FirstFieldOfTrimmed(line);
      key := Fields(trimmed)[0];
    }
    if key !in cleaned {
      out := out + [line];
    } else if key !in written {
      written := written + {key};
      out := AppendBlock(out, key, cleaned[key]);
    }
  }

  /** The first of the remaining lines, and the rest. */
  lemma RewriteFrom(lines: seq<string>, i: nat, cleaned: Update, seen: set<string>, before: seq<string>)
    requires i < |lines|
    ensures var after := Marked(lines[i], cleaned, seen);
            && before + Rewrite(lines[i..], cleaned, seen) ==
               before + Emitted(lines[i], cleaned, seen) + Rewrite(lines[i + 1..], cleaned, after)
            && Written(lines[i..], cleaned, seen) == Written(lines[i + 1..], cleaned, after)
  {
    assert lines[i..][0] == lines[i] && lines[i..][1..] == lines[i + 1..];
    var first, rest := Emitted(lines[i], cleaned, seen), Rewrite(lines[i + 1..], cleaned, Marked(lines[i], cleaned, seen));
    assert Rewrite(lines[i..], cleaned, seen) == first + rest;
    assert before + (first + rest) == before + first + rest;
  }

  /** WriteConf's loop over the file's lines. */
  method RewriteLoop(lines: seq<string>, cleaned: Update) returns (out: seq<string>, written: set<string>)
    ensures out == Rewrite(lines, cleaned, {}) && written == Written(lines, cleaned, {})
  {
    written := {};
    out := [];
    for i := 0 to |lines|
      invariant Rewrite(lines, cleaned, {}) == out + Rewrite(lines[i..], cleaned, written)
      invariant Written(lines, cleaned, {}) == Written(lines[i..], cleaned, written)
    {
      RewriteFrom(lines, i, cleaned, written, out);
      out, written := RewriteLine(lines[i], cleaned, out, written);
    }
    assert lines[|lines|..] == [];
  }

  /** WriteConf's loop over the keys that were not in the file, in any order. */
  method AppendLoop(pass: seq<string>, cleaned: Update, written: set<string>) returns (out: seq<string>)
    ensures exists order: seq<string> ::
              IsOrder(order, cleaned.Keys - written) && out == pass + Appended(order, cleaned)
  {
    out := pass;
    var names := cleaned.Keys;
    ghost var order: seq<string> := [];
    while names != {}
      invariant names <= cleaned.Keys
      invariant IsOrder(order, cleaned.Keys - names - written)
      invariant out == pass + Appended(order, cleaned)
      decreases |names|
    {
      var name :| name in names;
      names := names - {name};
      if name !in written {
        assert name !in order;
        AppendedOfConcat(order, [name], cleaned);
        assert Appended([name], cleaned) == Block(name, cleaned[name]) by {
          assert [name][1..] == [];
        }
        order := order + [name];
      }
      if name in written || cleaned[name] == [] {
        continue;
      }
      out := AppendBlock(out, name, cleaned[name]);
    }
  }

  method RewriteText(orig: string, cleaned: Update) returns (body: string)
    ensures IsWriteResult(orig, cleaned, body)
  {
    var lines := Split(orig, '\n');
    var pass, written := RewriteLoop(lines, cleaned);
    var out := AppendLoop(pass, cleaned, written);
    assert IsOutput(lines, cleaned, out);
    body := Join(out, "\n");
    if !HasSuffix(body, "\n") {
      body := body + "\n";
    }
  }

  method AppendBlock(out: seq<string>, key: string, vals: seq<string>) returns (longer: seq<string>)
    ensures longer == out + Block(key, vals)
  {
    longer := out;
    for j := 0 to |vals|
      invariant longer == out + Block(key, vals[..j])
    {
      longer := longer + [key + " " + vals[j]];
      assert Block(key, vals[..j + 1]) == Block(key, vals[..j]) + [key + " " + vals[j]];
    }
    assert vals[..|vals|] == vals;
  }

  // ------------------------------------------------------------------ the files

  /** Permission bits. */
  type Mode = bv12

  const DEFAULT_MODE: Mode := 0x1A4

  datatype File = File(data: string, mode: Mode)

  datatype ConfEntry = ConfEntry(key: ConfKey, values: seq<string>)

  function Bak(path: string): string { path + ".bak" }

  function Tmp(path: string): string { path + ".tmp" }

  lemma SiblingsDiffer(path: string)
    ensures Bak(path) != path && Tmp(path) != path && Bak(path) != Tmp(path)
  {
    assert Bak(path)[|path| + 1] == 'b' && Tmp(path)[|path| + 1] == 't';
  }

  /** The mode a file gets when it is written whole: an existing file keeps its own, a new one loses the umask's bits. */
  function ModeAfterWrite(files: map<string, File>, path: string, perm: Mode, umask: Mode): Mode {
    if path in files then files[path].mode else perm & !umask
  }

  /** The mode WriteConf asks for: the file's own, or the default if Stat fails. */
  function PermOf(stat: Option<Mode>): Mode {
    if stat.Some? then stat.value else DEFAULT_MODE
  }

  /** The files after a successful WriteConf of `path` with the new text `body`. */
  function AfterWrite(files: map<string, File>, path: string, perm: Mode, umask: Mode, body: string): map<string, File>
    requires path in files
  {
    files[Bak(path) := File(files[path].data, ModeAfterWrite(files, Bak(path), perm, umask))]
      [path := File(body, ModeAfterWrite(files, Tmp(path), perm, umask))] - {Tmp(path)}
  }

  /** The files after a successful RestoreConfBackup of `path`. */
  function AfterRestore(files: map<string, File>, path: string): map<string, File>
    requires Bak(path) in files
  {
    files[path := files[Bak(path)]] - {Bak(path)}
  }

  /** Rolling back a write brings the original text back, and touches no other file. */
  lemma RestoreUndoesWrite(files: map<string, File>, path: string, perm: Mode, umask: Mode, body: string)
    requires path in files
    ensures Bak(path) in AfterWrite(files, path, perm, umask, body)
    ensures var undone := AfterRestore(AfterWrite(files, path, perm, umask, body), path);
            && path in undone && undone[path].data == files[path].data
            && undone - {path} == files - {path, Bak(path), Tmp(path)}
  {
    SiblingsDiffer(path);
  }

  /** What keeps the mode of a file: the stale temporary file's mode if there is one, else permissions the umask leaves alone. */
  predicate KeepsMode(files: map<string, File>, path: string, stat: Option<Mode>, umask: Mode)
    requires path in files
  {
    if Tmp(path) in files then files[Tmp(path)].mode == files[path].mode
    else PermOf(stat) & !umask == files[path].mode
  }

  /**
   The file keeps its mode exactly when a stale temporary file has the same mode or, without
   one, when the mode Stat reported (or the default, when Stat failed) minus the umask is the
   file's mode.
   */
  lemma ModePreserved(files: map<string, File>, path: string, stat: Option<Mode>, umask: Mode, body: string)
    requires path in files
    ensures AfterWrite(files, path, PermOf(stat), umask, body)[path].mode == files[path].mode <==>
            KeepsMode(files, path, stat, umask)
  {
    SiblingsDiffer(path);
  }

  /** With a working Stat and no stale file that means: the mode shares no bit with the umask. */
  lemma UmaskDecides(files: map<string, File>, path: string, umask: Mode)
    requires path in files && Tmp(path) !in files
    ensures KeepsMode(files, path, Some(files[path].mode), umask) <==> files[path].mode & umask == 0
  {
    MaskedAway(files[path].mode, umask);
  }

  lemma MaskedAway(mode: Mode, umask: Mode)
    ensures mode & !umask == mode <==> mode & umask == 0
  {
  }

  /** A group-writable file is not group-writable any more after a write under the usual umask 022. */
  lemma GroupWriteIsLost(files: map<string, File>, path: string, body: string)
    requires path in files && Tmp(path) !in files && files[path].mode == 0x1B4
    ensures AfterWrite(files, path, PermOf(Some(files[path].mode)), 0x012, body)[path].mode == 0x1A4
  {
    SiblingsDiffer(path);
    assert 0x1B4 & !(0x012 as Mode) == 0x1A4 as Mode;
  }

  /** `entries` shows, for each key in order, what the file text `content` says. */
  predicate EntriesOf(entries: seq<ConfEntry>, keys: seq<ConfKey>, content: string) {
    && |entries| == |keys|
    && forall i :: 0 <= i < |keys| ==> entries[i] == ConfEntry(keys[i], ConfValues(content, keys[i].name))
  }

  lemma EmptyTextHasNoValues()
    ensures forall key :: ConfValues("", key) == []
  {
    LineByWords("");
    assert Split("", '\n') == [""] && [""][1..] == [];
    assert forall key :: ValuesOf([""], key) == [];
  }

  /** The settings of the whitelist, in its order, with the values found in the file. */
  method ListEntries(keys: seq<ConfKey>, values: map<string, seq<string>>, ghost content: string) returns (entries: seq<ConfEntry>)
    requires forall key :: (if key in values then values[key] else []) == ConfValues(content, key)
    ensures EntriesOf(entries, keys, content)
  {
    entries := [];
    for i := 0 to |keys|
      invariant |entries| == i
      invariant forall j :: 0 <= j < i ==> entries[j] == ConfEntry(keys[j], ConfValues(content, keys[j].name))
    {
      var vals := if keys[i].name in values then values[keys[i].name] else [];
      entries := entries + [ConfEntry(keys[i], vals)];
    }
  }

  /** The part of Manager that edits configuration files; every file operation may fail. */
  class ConfManager {
    const clamdConf: string
    const freshclamConf: string
    const umask: Mode
    var files: map<string, File>

    constructor (clamdConf: string, freshclamConf: string, umask: Mode, files: map<string, File>)
      ensures this.clamdConf == clamdConf && this.freshclamConf == freshclamConf && this.umask == umask && this.files == files
    {
      this.clamdConf := clamdConf;
      this.freshclamConf := freshclamConf;
      this.umask := umask;
      this.files := files;
    }

    function ConfPath(which: string): string {
      if which == "freshclam" then freshclamConf else clamdConf
    }

    method ReadFile(path: string) returns (r: Option<string>)
      ensures r.Some? ==> path in files && r.value == files[path].data
    {
      if * {
        r := if path in files then Some(files[path].data) else None;
      } else {
        r := None;
      }
    }

    method Stat(path: string) returns (mode: Option<Mode>)
      ensures mode.Some? ==> path in files && mode.value == files[path].mode
    {
      if * {
        mode := if path in files then Some(files[path].mode) else None;
      } else {
        mode := None;
      }
    }

    /** Replaces a file's data; a failed write may leave part of the data behind. */
    method WriteFile(path: string, data: string, perm: Mode) returns (ok: bool)
      modifies this
      ensures ok ==> files == old(files)[path := File(data, ModeAfterWrite(old(files), path, perm, umask))]
      ensures files - {path} == old(files) - {path}
    {
      var mode := ModeAfterWrite(files, path, perm, umask);
      if * {
        files := files[path := File(data, mode)];
        ok := true;
      } else {
        if * {
          var n :| 0 <= n <= |data|;
          files := files[path := File(data[..n], mode)];
        }
        ok := false;
      }
    }

    method Rename(from: string, to: string) returns (ok: bool)
      modifies this
      ensures ok ==> from in old(files) && files == old(files)[to := old(files)[from]] - (if from == to then {} else {from})
      ensures !ok ==> files == old(files)
    {
      if * {
        ok := from in files;
        if ok {
          files := files[to := files[from]] - (if from == to then {} else {from});
        }
      } else {
        ok := false;
      }
    }

    method Remove(path: string)
      modifies this
      ensures files == old(files) || files == old(files) - {path}
    {
      if * {
        files := files - {path};
      }
    }

    /** The editable settings of a file, in whitelist order; an unreadable file has none set. */
    method ReadConf(which: string) returns (r: Result<seq<ConfEntry>, ConfError>)
      ensures r.Ok? <==> ConfKeysFor(which).Some?
      ensures r.Err? ==> r.error == UnknownConf
      ensures r.Ok? ==>
                || EntriesOf(r.value, ConfKeysFor(which).value, "")
                || (ConfPath(which) in files && EntriesOf(r.value, ConfKeysFor(which).value, files[ConfPath(which)].data))
    {
      var found := ConfKeysFor(which);
      if found.None? {
        return Err(UnknownConf);
      }
      var values: map<string, seq<string>> := map[];
      var content := ReadFile(ConfPath(which));
      if content.Some? {
        values := ReadValues(content.value);
      }
      EmptyTextHasNoValues();
      var entries := ListEntries(found.value, values, if content.Some? then content.value else "");
      r := Ok(entries);
    }

    /**
     Applies accepted updates. On success the file reads as the override, the original text is
     in the backup and no other file changed; on failure the file itself is untouched.
     */
    method WriteConf(which: string, updates: map<string, seq<string>>) returns (r: Result<(), ConfError>, ghost stat: Option<Mode>)
      modifies this
      ensures ConfKeysFor(which).None? ==> r == Err(UnknownConf) && files == old(files)
      ensures ConfKeysFor(which).Some? && !Accepted(ConfKeysFor(which).value, updates) ==>
                r.Err? && (r.error.KeyNotAllowed? || r.error.ValueInvalid?) && files == old(files)
      ensures r.Err? ==> var path := ConfPath(which);
                files - {Bak(path), Tmp(path)} == old(files) - {Bak(path), Tmp(path)}
      ensures r.Ok? ==>
                && ConfKeysFor(which).Some? && Accepted(ConfKeysFor(which).value, updates)
                && var cleaned, path := Cleaned(ConfKeysFor(which).value, updates), ConfPath(which);
                && path in old(files) && path in files
                && IsWriteResult(old(files)[path].data, cleaned, files[path].data)
                && (NewlineFree(cleaned) ==> forall key ::
                      ConfValues(files[path].data, key) == Override(old(files)[path].data, cleaned, key))
                && (stat.Some? ==> stat.value == old(files)[path].mode)
                && files == AfterWrite(old(files), path, PermOf(stat), umask, files[path].data)
                && (files[path].mode == old(files)[path].mode <==> KeepsMode(old(files), path, stat, umask))
    {
      stat := None;
      var found := ConfKeysFor(which);
      if found.None? {
        r := Err(UnknownConf);
        return;
      }
      var check := CleanUpdates(found.value, updates);
      if check.Err? {
        r := Err(check.error);
        return;
      }
      var cleaned, path := check.value, ConfPath(which);
      var orig := ReadFile(path);
      if orig.None? {
        r := Err(ReadFailed);
        return;
      }
      var mode := DEFAULT_MODE;
      var info := Stat(path);
      stat := info;
      if info.Some? {
        mode := info.value;
      }
      var body := RewriteText(orig.value, cleaned);
      r := Install(path, body, mode);
      if r.Ok? {
        CleanedIsWellFormed(which, updates);
        WriteRefinesOverride(orig.value, cleaned, body);
        SiblingsDiffer(path);
        ModePreserved(old(files), path, info, umask, body);
      }
    }

    /** The last part of WriteConf: back up, write a temporary file, rename it into place. */
    method Install(path: string, body: string, mode: Mode) returns (r: Result<(), ConfError>)
      requires path in files
      modifies this
      ensures r.Ok? ==> files == AfterWrite(old(files), path, mode, umask, body)
      ensures r.Err? ==> !r.error.UnknownConf? && !r.error.KeyNotAllowed? && !r.error.ValueInvalid?
      ensures r.Err? ==> files - {Bak(path), Tmp(path)} == old(files) - {Bak(path), Tmp(path)}
    {
      SiblingsDiffer(path);
      var ok := WriteFile(Bak(path), files[path].data, mode);
      if !ok {
        SameWithoutBoth(old(files), files, files, Bak(path), Tmp(path));
        return Err(BackupFailed);
      }
      ghost var backedUp := files;
      ok := WriteFile(Tmp(path), body, mode);
      if !ok {
        SameWithoutBoth(old(files), backedUp, files, Bak(path), Tmp(path));
        return Err(TempFailed);
      }
      ok := Rename(Tmp(path), path);
      if !ok {
        Remove(Tmp(path));
        return Err(ReplaceFailed);
      }
      r := Ok(());
    }

    method RestoreConfBackup(which: string) returns (ok: bool)
      modifies this
      ensures ok ==> Bak(ConfPath(which)) in old(files) && files == AfterRestore(old(files), ConfPath(which))
      ensures !ok ==> files == old(files)
    {
      SiblingsDiffer(ConfPath(which));
      ok := Rename(Bak(ConfPath(which)), ConfPath(which));
    }
  }

  lemma SameWithoutBoth<K, V>(a: map<K, V>, b: map<K, V>, c: map<K, V>, first: K, second: K)
    requires a - {first} == b - {first} && b - {second} == c - {second}
    ensures c - {first, second} == a - {first, second}
  {
    assert a - {first, second} == a - {first} - {second};
    assert b - {first, second} == b - {first} - {second} && b - {first, second} == b - {second} - {first};
    assert c - {first, second} == c - {second} - {first};
  }
}
