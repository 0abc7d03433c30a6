/**
 internal/clamav/config_files.go, the text level: how one line of clamd.conf or
 freshclam.conf is read, and what the line surgery of WriteConf produces.
 */
module ConfText {
  import opened Text
  import opened Wrappers

  datatype Entry = Entry(key: string, value: string)

  /** The cleaned values of every updated key. */
  type Update = map<string, seq<string>>

  /** ReadConf's view of one raw line: a key with a value, or nothing. */
  function LineEntry(raw: string): Option<Entry> {
    var line := TrimSpace(TrimRight(raw, '\r'));
    if line == "" || HasPrefix(line, "#") then None
    else
      var fields := Fields(line);
      if |fields| < 2 then None else Some(Entry(fields[0], Join(fields[1..], " ")))
  }

  /** WriteConf's view of one raw line: the key it belongs to, or "". */
  function LineKey(raw: string): string {
    var trimmed := TrimSpace(TrimRight(raw, '\r'));
    if trimmed != "" && !HasPrefix(trimmed, "#") then
      FirstFieldOfTrimmed(TrimRight(raw, '\r'));
      Fields(trimmed)[0]
    else ""
  }

  lemma FirstFieldOfTrimmed(line: string)
    ensures TrimSpace(line) != "" ==> Fields(TrimSpace(line)) != []
  {
    TrimSpaceIsTrimmed(line);
    FirstFieldStartsText(TrimSpace(line));
  }

  /** All values ReadConf collects for `key`, in file order. */
  function ValuesOf(lines: seq<string>, key: string): seq<string> {
    if lines == [] then []
    else
      var rest := ValuesOf(lines[1..], key);
      match LineEntry(lines[0])
      case Some(Entry(k, v)) => if k == key then [v] + rest else rest
      case None => rest
  }

  /** What a configuration file says about `key`. */
  function ConfValues(content: string, key: string): seq<string> {
    ValuesOf(Split(content, '\n'), key)
  }

  /** A value as a reader sees it: its words joined by single blanks. */
  function Collapse(v: string): string {
    Join(Fields(v), " ")
  }

  function CollapseAll(vals: seq<string>): seq<string> {
    seq(|vals|, i requires 0 <= i < |vals| => Collapse(vals[i]))
  }

  /** The lines written for one key. */
  function Block(key: string, vals: seq<string>): seq<string> {
    seq(|vals|, i requires 0 <= i < |vals| => key + " " + vals[i])
  }

  /** The output lines for one input line: the line itself, its key's new block, or nothing. */
  function Emitted(line: string, update: Update, written: set<string>): seq<string> {
    var key := LineKey(line);
    if key !in update then [TrimRight(line, '\r')]
    else if key in written then []
    else Block(key, update[key])
  }

  function Marked(line: string, update: Update, written: set<string>): set<string> {
    var key := LineKey(line);
    if key in update then written + {key} else written
  }

  /** The loop over the original lines: rewrite in place, drop repeats, keep the rest. */
  function Rewrite(lines: seq<string>, update: Update, written: set<string>): seq<string> {
    if lines == [] then []
    else Emitted(lines[0], update, written) + Rewrite(lines[1..], update, Marked(lines[0], update, written))
  }

  /** The updated keys that the loop found in the file. */
  function Written(lines: seq<string>, update: Update, written: set<string>): set<string> {
    if lines == [] then written
    else Written(lines[1..], update, Marked(lines[0], update, written))
  }

  /** The appended lines, for keys taken in the given order. */
  function Appended(order: seq<string>, update: Update): seq<string>
    requires forall k :: k in order ==> k in update
  {
    if order == [] then [] else Block(order[0], update[order[0]]) + Appended(order[1..], update)
  }

  /** `order` lists every element of `keys` once: one possible iteration over a Go map. */
  ghost predicate IsOrder(order: seq<string>, keys: set<string>) {
    && (forall k :: k in order <==> k in keys)
    && (forall i, j :: 0 <= i < j < |order| ==> order[i] != order[j])
  }

  function FinishBody(out: seq<string>): string {
    var body := Join(out, "\n");
    if HasSuffix(body, "\n") then body else body + "\n"
  }

  /** The output lines of WriteConf for one append order. */
  ghost predicate IsOutput(lines: seq<string>, update: Update, out: seq<string>) {
    exists order: seq<string> ::
      && IsOrder(order, update.Keys - Written(lines, update, {}))
      && out == Rewrite(lines, update, {}) + Appended(order, update)
  }

  /** `body` is a file text WriteConf may produce from `orig`. */
  ghost predicate IsWriteResult(orig: string, update: Update, body: string) {
    exists out: seq<string> :: IsOutput(Split(orig, '\n'), update, out) && body == FinishBody(out)
  }

  /** A name that can own a line. */
  predicate IsKey(key: string) {
    IsWord(key) && key[0] != '#'
  }

  /** A value as the cleaning of an update leaves it. */
  predicate IsValue(v: string) {
    v != "" && Trimmed(v)
  }

  /** What the whitelist and the cleaning of values guarantee about an update. */
  ghost predicate WellFormed(update: Update) {
    forall key :: key in update ==> IsKey(key) && AreValues(update[key])
  }

  predicate AreValues(vals: seq<string>) {
    forall i :: 0 <= i < |vals| ==> IsValue(vals[i])
  }

  predicate NoNewlines(lines: seq<string>) {
    forall i :: 0 <= i < |lines| ==> '\n' !in lines[i]
  }

  lemma NoNewlinesOfConcat(a: seq<string>, b: seq<string>)
    ensures NoNewlines(a + b) <==> NoNewlines(a) && NoNewlines(b)
  {
    assert forall i :: 0 <= i < |a| ==> (a + b)[i] == a[i];
    assert forall i :: 0 <= i < |b| ==> (a + b)[|a| + i] == b[i];
  }

  ghost predicate NewlineFree(update: Update) {
    forall key :: key in update ==> NoNewlines(update[key])
  }

  /** The simple form: a map override of the file's view. */
  function Override(orig: string, update: Update, key: string): seq<string> {
    if key in update then CollapseAll(update[key]) else ConfValues(orig, key)
  }

  // ------------------------------------------------------ one line, by its words

  function KeyOfWords(words: seq<string>): string
    requires words != [] ==> IsWord(words[0])
  {
    if words == [] || words[0][0] == '#' then "" else words[0]
  }

  function EntryOfWords(words: seq<string>): Option<Entry>
    requires words != [] ==> IsWord(words[0])
  {
    if |words| < 2 || words[0][0] == '#' then None else Some(Entry(words[0], Join(words[1..], " ")))
  }

  /** Reader and writer look at a line only through its words. */
  lemma LineByWords(raw: string)
    ensures LineKey(raw) == KeyOfWords(Fields(raw))
    ensures LineEntry(raw) == EntryOfWords(Fields(raw))
  {
    var line := TrimRight(raw, '\r');
    FieldsIgnoreTrailing(raw, '\r');
    FieldsIgnoreTrim(line);
    TrimSpaceIsTrimmed(line);
    FirstFieldStartsText(TrimSpace(line));
  }

  lemma TrimmedLineReadsTheSame(raw: string)
    ensures LineKey(TrimRight(raw, '\r')) == LineKey(raw)
    ensures LineEntry(TrimRight(raw, '\r')) == LineEntry(raw)
  {
    TrimRightFacts(raw, '\r');
  }

  lemma WrittenFields(key: string, v: string)
    requires IsKey(key) && IsValue(v)
    ensures var fields := Fields(key + " " + v);
            fields == [key] + Fields(v) && |fields| >= 2 && fields[0] == key && fields[1..] == Fields(v)
  {
    FieldsOfWord(key);
    FieldsOfConcat(key, ' ', v);
    FirstFieldStartsText(v);
  }

  lemma WrittenLine(key: string, v: string)
    requires IsKey(key) && IsValue(v)
    ensures LineKey(key + " " + v) == key
    ensures LineEntry(key + " " + v) == Some(Entry(key, Collapse(v)))
    ensures TrimRight(key + " " + v, '\r') == key + " " + v
  {
    var line := key + " " + v;
    assert line[|line| - 1] == v[|v| - 1];
    WrittenFields(key, v);
    LineByWords(line);
  }

  // ------------------------------------------------------------- values of lists

  lemma {:induction false} ValuesOfConcat(a: seq<string>, b: seq<string>, key: string)
    ensures ValuesOf(a + b, key) == ValuesOf(a, key) + ValuesOf(b, key)
  {
    if a == [] {
      assert a + b == b;
    } else {
      assert (a + b)[1..] == a[1..] + b;
      ValuesOfConcat(a[1..], b, key);
    }
  }

  lemma ValuesOfCons(line: string, rest: seq<string>, key: string)
    ensures ValuesOf([line] + rest, key) ==
            if LineEntry(line).Some? && LineEntry(line).value.key == key then [LineEntry(line).value.value] + ValuesOf(rest, key)
            else ValuesOf(rest, key)
  {
    assert ([line] + rest)[1..] == rest;
  }

  lemma BlockCons(owner: string, vals: seq<string>)
    requires vals != []
    ensures Block(owner, vals) == [owner + " " + vals[0]] + Block(owner, vals[1..])
    ensures CollapseAll(vals) == [Collapse(vals[0])] + CollapseAll(vals[1..])
  {
  }

  lemma {:induction false} ValuesOfBlock(owner: string, vals: seq<string>, key: string)
    requires IsKey(owner) && AreValues(vals)
    ensures ValuesOf(Block(owner, vals), key) == if key == owner then CollapseAll(vals) else []
  {
    if vals != [] {
      BlockCons(owner, vals);
      ValuesOfBlock(owner, vals[1..], key);
      assert IsValue(vals[0]);
      BlockLineFirst(owner, vals[0], Block(owner, vals[1..]), key);
    }
  }

  lemma BlockLineFirst(owner: string, v: string, rest: seq<string>, key: string)
    requires IsKey(owner) && IsValue(v)
    ensures ValuesOf([owner + " " + v] + rest, key) ==
            if key == owner then [Collapse(v)] + ValuesOf(rest, key) else ValuesOf(rest, key)
  {
    WrittenLine(owner, v);
    ValuesOfCons(owner + " " + v, rest, key);
  }

  lemma {:induction false} ValuesOfAppended(order: seq<string>, update: Update, key: string)
    requires WellFormed(update)
    requires forall k :: k in order ==> k in update
    requires forall i, j :: 0 <= i < j < |order| ==> order[i] != order[j]
    ensures ValuesOf(Appended(order, update), key) == if key in order then CollapseAll(update[key]) else []
  {
    if order != [] {
      ValuesOfBlock(order[0], update[order[0]], key);
      ValuesOfAppended(order[1..], update, key);
      ValuesOfConcat(Block(order[0], update[order[0]]), Appended(order[1..], update), key);
    }
  }

  lemma ValuesOfEmitted(line: string, update: Update, written: set<string>, key: string)
    requires WellFormed(update)
    ensures ValuesOf(Emitted(line, update, written), key) ==
            if key !in update then ValuesOf([line], key)
            else if key == LineKey(line) && key !in written then CollapseAll(update[key])
            else []
  {
    var owner := LineKey(line);
    LineByWords(line);
    assert [line][1..] == [] && [TrimRight(line, '\r')][1..] == [];
    if owner !in update {
      TrimmedLineReadsTheSame(line);
    } else if owner !in written {
      ValuesOfBlock(owner, update[owner], key);
    }
  }

  /** The in-place pass keeps every other key's values, and writes an updated key's new values at most once. */
  lemma {:induction false} ValuesOfRewrite(lines: seq<string>, update: Update, written: set<string>, key: string)
    requires WellFormed(update)
    ensures ValuesOf(Rewrite(lines, update, written), key) ==
            if key !in update then ValuesOf(lines, key)
            else if key !in written && key in Written(lines, update, written) then CollapseAll(update[key])
            else []
  {
    if lines != [] {
      var after := Marked(lines[0], update, written);
      ValuesOfEmitted(lines[0], update, written, key);
      ValuesOfRewrite(lines[1..], update, after, key);
      WrittenGrows(lines[1..], update, after);
      ValuesOfConcat(Emitted(lines[0], update, written), Rewrite(lines[1..], update, after), key);
      assert lines == [lines[0]] + lines[1..];
      ValuesOfConcat([lines[0]], lines[1..], key);
    }
  }

  lemma {:induction false} WrittenGrows(lines: seq<string>, update: Update, written: set<string>)
    ensures written <= Written(lines, update, written) <= written + update.Keys
  {
    if lines != [] {
      WrittenGrows(lines[1..], update, Marked(lines[0], update, written));
    }
  }

  /** Taking each output line as one line, the output reads as the override, whatever the values contain. */
  lemma OutputReadsAsOverride(orig: string, update: Update, out: seq<string>, key: string)
    requires WellFormed(update) && IsOutput(Split(orig, '\n'), update, out)
    ensures ValuesOf(out, key) == Override(orig, update, key)
  {
    var lines := Split(orig, '\n');
    var order: seq<string> :|
      IsOrder(order, update.Keys - Written(lines, update, {})) &&
      out == Rewrite(lines, update, {}) + Appended(order, update);
    ValuesOfRewrite(lines, update, {}, key);
    ValuesOfAppended(order, update, key);
    ValuesOfConcat(Rewrite(lines, update, {}), Appended(order, update), key);
  }

  // -------------------------------------------------- output lines and file lines

  /** The lines of the file when output lines may themselves contain newlines. */
  function Physical(out: seq<string>): seq<string> {
    if out == [] then [] else Split(out[0], '\n') + Physical(out[1..])
  }

  lemma {:induction false} SplitOfJoinedLines(out: seq<string>)
    requires out != []
    ensures Split(Join(out, "\n"), '\n') == Physical(out)
  {
    if |out| > 1 {
      SplitOfJoinedLines(out[1..]);
      SplitOfConcat(out[0], '\n', Join(out[1..], "\n"));
    } else {
      assert Physical(out[1..]) == [];
    }
  }

  lemma {:induction false} PhysicalOfCleanLines(out: seq<string>)
    requires NoNewlines(out)
    ensures Physical(out) == out
  {
    if out != [] {
      SplitWithoutSeparator(out[0], '\n');
      PhysicalOfCleanLines(out[1..]);
    }
  }

  lemma {:induction false} PhysicalOfConcat(a: seq<string>, b: seq<string>)
    ensures Physical(a + b) == Physical(a) + Physical(b)
  {
    if a == [] {
      assert a + b == b;
    } else {
      assert (a + b)[1..] == a[1..] + b;
      PhysicalOfConcat(a[1..], b);
    }
  }

  /** The lines of the finished file: the output, and at most one empty line more. */
  lemma LinesOfBody(out: seq<string>)
    ensures Split(FinishBody(out), '\n') ==
            if out == [] then ["", ""]
            else if HasSuffix(Join(out, "\n"), "\n") then Physical(out)
            else Physical(out) + [""]
  {
    var body := Join(out, "\n");
    SplitOfConcat(body, '\n', "");
    assert body + ['\n'] + "" == body + "\n";
    if out != [] {
      SplitOfJoinedLines(out);
    }
  }

  lemma ValuesOfBody(out: seq<string>, key: string)
    ensures ConfValues(FinishBody(out), key) == ValuesOf(Physical(out), key)
  {
    LinesOfBody(out);
    LineByWords("");
    assert ValuesOf([""], key) == [] && ["", ""] == [""] + [""];
    ValuesOfConcat([""], [""], key);
    ValuesOfConcat(Physical(out), [""], key);
  }

  // ----------------------------------------- which output lines contain a newline

  /** `line` is written for some value of the update. */
  ghost predicate IsValueLine(line: string, update: Update) {
    exists key, j :: key in update && 0 <= j < |update[key]| && line == key + " " + update[key][j]
  }

  ghost predicate KeptOrValueLines(out: seq<string>, update: Update) {
    forall i :: 0 <= i < |out| ==> '\n' !in out[i] || IsValueLine(out[i], update)
  }

  lemma BlockLines(key: string, update: Update)
    requires key in update
    ensures KeptOrValueLines(Block(key, update[key]), update)
    ensures forall j :: 0 <= j < |update[key]| ==> key + " " + update[key][j] in Block(key, update[key])
  {
    var block := Block(key, update[key]);
    assert forall j :: 0 <= j < |block| ==> block[j] == key + " " + update[key][j];
    assert forall j :: 0 <= j < |update[key]| ==> block[j] in block;
  }

  lemma {:induction false} RewriteLines(lines: seq<string>, update: Update, written: set<string>)
    requires NoNewlines(lines)
    ensures KeptOrValueLines(Rewrite(lines, update, written), update)
    ensures forall key, j :: key in Written(lines, update, written) - written && key in update && 0 <= j < |update[key]| ==>
              key + " " + update[key][j] in Rewrite(lines, update, written)
  {
    if lines != [] {
      var key := LineKey(lines[0]);
      TrimRightFacts(lines[0], '\r');
      RewriteLines(lines[1..], update, Marked(lines[0], update, written));
      if key in update && key !in written {
        BlockLines(key, update);
      }
    }
  }

  lemma {:induction false} AppendedLines(order: seq<string>, update: Update)
    requires forall k :: k in order ==> k in update
    ensures KeptOrValueLines(Appended(order, update), update)
    ensures forall key, j :: key in order && 0 <= j < |update[key]| ==>
              key + " " + update[key][j] in Appended(order, update)
  {
    if order != [] {
      AppendedLines(order[1..], update);
      BlockLines(order[0], update);
    }
  }

  /** Output lines break exactly where a value does. */
  lemma OutputLines(lines: seq<string>, update: Update, out: seq<string>)
    requires WellFormed(update) && IsOutput(lines, update, out)
    requires NoNewlines(lines)
    ensures KeptOrValueLines(out, update)
    ensures NewlineFree(update) <==> NoNewlines(out)
  {
    var found := Written(lines, update, {});
    var order: seq<string> :|
      IsOrder(order, update.Keys - found) && out == Rewrite(lines, update, {}) + Appended(order, update);
    RewriteLines(lines, update, {});
    AppendedLines(order, update);
    if NewlineFree(update) {
      forall i | 0 <= i < |out|
        ensures '\n' !in out[i]
      {
        if IsValueLine(out[i], update) {
          var key, j :| key in update && 0 <= j < |update[key]| && out[i] == key + " " + update[key][j];
          NewlineOfLine(key, update[key][j]);
        }
      }
    } else {
      var key, j :| key in update && 0 <= j < |update[key]| && '\n' in update[key][j];
      NewlineOfLine(key, update[key][j]);
      assert key in found || key in order;
      assert key + " " + update[key][j] in out;
    }
  }

  lemma NewlineOfLine(key: string, v: string)
    requires IsWord(key)
    ensures '\n' in key + " " + v <==> '\n' in v
  {
    var line := key + " " + v;
    if '\n' in v {
      var i :| 0 <= i < |v| && v[i] == '\n';
      assert line[|key| + 1 + i] == '\n';
    }
  }

  // ------------------------------------------------- a value with a newline breaks

  lemma {:induction false} FirstPart(s: string) returns (head: string, tail: string)
    requires '\n' in s
    ensures s == head + "\n" + tail && '\n' !in head
    ensures Split(s, '\n') == [head] + Split(tail, '\n')
  {
    if s[0] == '\n' {
      head, tail := "", s[1..];
    } else {
      head, tail := FirstPart(s[1..]);
      head := [s[0]] + head;
    }
  }

  /** A value that contains a newline has words on both sides of it. */
  lemma BrokenParts(v: string) returns (head: string, tail: string)
    requires IsValue(v) && '\n' in v
    ensures v == head + "\n" + tail && '\n' !in head && head != "" && tail != ""
    ensures |Fields(head)| < |Fields(v)|
  {
    head, tail := FirstPart(v);
    assert v[0] != '\n' && v[|v| - 1] != '\n';
    assert head != "" && tail != "" && tail[|tail| - 1] == v[|v| - 1];
    FieldsOfConcat(head, '\n', tail);
    assert head + ['\n'] + tail == v;
    LastWordKept(tail);
  }

  lemma DifferentWords(a: string, b: string)
    requires |Fields(a)| != |Fields(b)|
    ensures Collapse(a) != Collapse(b)
  {
    FieldsOfJoin(Fields(a));
    FieldsOfJoin(Fields(b));
  }

  /** A value that contains a newline comes back as something else. */
  lemma BrokenValue(key: string, v: string)
    requires IsKey(key) && IsValue(v) && '\n' in v
    ensures var got := ValuesOf(Split(key + " " + v, '\n'), key); got != [] && got[0] != Collapse(v)
  {
    var head, tail := BrokenParts(v);
    var line := key + " " + head;
    assert key + " " + v == line + ['\n'] + tail;
    SplitOfConcat(line, '\n', tail);
    SplitWithoutSeparator(line, '\n');
    FieldsOfWord(key);
    FieldsOfConcat(key, ' ', head);
    LineByWords(line);
    assert ([key] + Fields(head))[1..] == Fields(head);
    ValuesOfCons(line, Split(tail, '\n'), key);
    DifferentWords(head, v);
  }

  lemma {:induction false} LastWordKept(s: string)
    requires s != "" && !IsSpace(s[|s| - 1])
    ensures Fields(s) != []
  {
    if |s| > 1 {
      LastWordKept(s[1..]);
    }
  }

  /** The first broken output line spoils the values of its key at that place. */
  lemma BrokenOutput(before: seq<string>, key: string, v: string, after: seq<string>)
    requires NoNewlines(before)
    requires IsKey(key) && IsValue(v) && '\n' in v
    ensures var out := before + [key + " " + v] + after;
            ValuesOf(Physical(out), key) != ValuesOf(out, key)
  {
    var line := key + " " + v;
    var out := before + [line] + after;
    PhysicalOfConcat(before + [line], after);
    PhysicalOfConcat(before, [line]);
    PhysicalOfCleanLines(before);
    assert Physical([line]) == Split(line, '\n') by {
      assert [line][1..] == [];
    }
    var n := |ValuesOf(before, key)|;
    BrokenValue(key, v);
    ValuesOfConcat(before + Split(line, '\n'), Physical(after), key);
    ValuesOfConcat(before, Split(line, '\n'), key);
    assert ValuesOf(Physical(out), key)[n] != Collapse(v);
    WrittenLine(key, v);
    assert ValuesOf([line], key) == [Collapse(v)] by {
      assert [line][1..] == [];
    }
    ValuesOfConcat(before + [line], after, key);
    ValuesOfConcat(before, [line], key);
    assert ValuesOf(out, key)[n] == Collapse(v);
  }

  lemma {:induction false} FirstBrokenLine(out: seq<string>) returns (i: nat)
    requires !NoNewlines(out)
    ensures i < |out| && '\n' in out[i] && NoNewlines(out[..i])
  {
    if '\n' in out[0] {
      i := 0;
    } else {
      var k :| 0 <= k < |out| && '\n' in out[k];
      assert out[1..][k - 1] == out[k];
      i := FirstBrokenLine(out[1..]);
      assert out[i + 1] == out[1..][i];
      forall m | 0 <= m < i + 1
        ensures '\n' !in out[m]
      {
        assert m > 0 ==> out[m] == out[1..][m - 1];
      }
      i := i + 1;
    }
  }

  // -------------------------------------------------------------- the main result

  /**
   WriteConf refines a map override of the file's view exactly when no written value
   contains a newline: for every file text, every accepted update and every append order.
   */
  lemma WriteRefinesOverride(orig: string, update: Update, body: string)
    requires WellFormed(update) && IsWriteResult(orig, update, body)
    ensures NewlineFree(update) <==> forall key :: ConfValues(body, key) == Override(orig, update, key)
  {
    var out: seq<string> :| IsOutput(Split(orig, '\n'), update, out) && body == FinishBody(out);
    OutputLines(Split(orig, '\n'), update, out);
    if NewlineFree(update) {
      PhysicalOfCleanLines(out);
      forall key
        ensures ConfValues(body, key) == Override(orig, update, key)
      {
        ValuesOfBody(out, key);
        OutputReadsAsOverride(orig, update, out, key);
      }
    } else {
      var key := BrokenKey(orig, update, out);
      assert ConfValues(body, key) != Override(orig, update, key);
    }
  }

  lemma BrokenKey(orig: string, update: Update, out: seq<string>) returns (key: string)
    requires WellFormed(update) && !NewlineFree(update) && IsOutput(Split(orig, '\n'), update, out)
    ensures ConfValues(FinishBody(out), key) != Override(orig, update, key)
  {
    OutputLines(Split(orig, '\n'), update, out);
    var i := FirstBrokenLine(out);
    assert IsValueLine(out[i], update);
    var j;
    key, j :| key in update && 0 <= j < |update[key]| && out[i] == key + " " + update[key][j];
    assert IsValue(update[key][j]);
    NewlineOfLine(key, update[key][j]);
    BrokenOutput(out[..i], key, update[key][j], out[i + 1..]);
    assert out == out[..i] + [out[i]] + out[i + 1..];
    ValuesOfBody(out, key);
    OutputReadsAsOverride(orig, update, out, key);
  }

  /** Two writes in a row leave the same view as one write of the merged update. */
  lemma TwoWritesReadAsOne(orig: string, first: Update, middle: string, second: Update, twice: string, once: string)
    requires WellFormed(first) && NewlineFree(first) && WellFormed(second) && NewlineFree(second)
    requires IsWriteResult(orig, first, middle) && IsWriteResult(middle, second, twice)
    requires IsWriteResult(orig, first + second, once)
    ensures forall key :: ConfValues(twice, key) == ConfValues(once, key)
  {
    WriteRefinesOverride(orig, first, middle);
    WriteRefinesOverride(middle, second, twice);
    WriteRefinesOverride(orig, first + second, once);
  }

  // ---------------------------------------------------------- parts of the output

  lemma {:induction false} RewriteOfConcat(a: seq<string>, b: seq<string>, update: Update, written: set<string>)
    ensures Rewrite(a + b, update, written) == Rewrite(a, update, written) + Rewrite(b, update, Written(a, update, written))
    ensures Written(a + b, update, written) == Written(b, update, Written(a, update, written))
  {
    if a == [] {
      assert a + b == b;
    } else {
      assert (a + b)[0] == a[0] && (a + b)[1..] == a[1..] + b;
      RewriteOfConcat(a[1..], b, update, Marked(a[0], update, written));
    }
  }

  lemma RewriteOfOne(line: string, update: Update, written: set<string>)
    ensures Rewrite([line], update, written) == Emitted(line, update, written)
    ensures Written([line], update, written) == Marked(line, update, written)
  {
    assert [line][1..] == [];
  }

  lemma {:induction false} AppendedNothing(order: seq<string>, update: Update)
    requires forall k :: k in order ==> k in update && update[k] == []
    ensures Appended(order, update) == []
  {
    if order != [] {
      AppendedNothing(order[1..], update);
    }
  }

  lemma BlankLinesStay(lines: seq<string>, update: Update)
    requires WellFormed(update)
    ensures Rewrite(lines + [""], update, {}) == Rewrite(lines, update, {}) + [""]
    ensures Written(lines + [""], update, {}) == Written(lines, update, {})
  {
    LineByWords("");
    RewriteOfConcat(lines, [""], update, {});
    assert [""][1..] == [];
    assert Rewrite([""], update, Written(lines, update, {})) == [""];
  }
}
