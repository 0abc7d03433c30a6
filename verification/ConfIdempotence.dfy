/**
 Writing the same update twice. It leaves the same bytes for every file exactly when no value has
 a continuation line that a second write would keep or replace; otherwise the file can change, and
 with a continuation line that belongs to no updated key it grows with every write.
 */
module ConfIdempotence {
  import opened Text
  import opened ConfText

  /** A second write drops the line as a repeat of its own key, or as a line of a removed key. */
  predicate Absorbed(owner: string, update: Update, line: string) {
    var key := LineKey(line);
    key == owner || (key in update && update[key] == [])
  }

  /** Every line after the first of the value is absorbed. */
  predicate TailAbsorbed(owner: string, update: Update, v: string) {
    var lines := Split(v, '\n');
    forall i :: 1 <= i < |lines| ==> Absorbed(owner, update, lines[i])
  }

  predicate AllAbsorbed(owner: string, update: Update, vals: seq<string>) {
    forall j :: 0 <= j < |vals| ==> TailAbsorbed(owner, update, vals[j])
  }

  ghost predicate Stable(update: Update) {
    forall key :: key in update ==> AllAbsorbed(key, update, update[key])
  }

  // ------------------------------------------------------- the lines of one block

  lemma {:induction false} SplitAfterPrefix(prefix: string, v: string)
    requires '\n' !in prefix
    ensures Split(prefix + v, '\n') == [prefix + Split(v, '\n')[0]] + Split(v, '\n')[1..]
  {
    if prefix == "" {
      assert prefix + v == v && prefix + Split(v, '\n')[0] == Split(v, '\n')[0];
      assert [Split(v, '\n')[0]] + Split(v, '\n')[1..] == Split(v, '\n');
    } else {
      assert (prefix + v)[0] == prefix[0] && (prefix + v)[1..] == prefix[1..] + v;
      SplitAfterPrefix(prefix[1..], v);
      assert [prefix[0]] + (prefix[1..] + Split(v, '\n')[0]) == prefix + Split(v, '\n')[0];
    }
  }

  lemma HeadLineKey(key: string, head: string)
    requires IsKey(key)
    ensures LineKey(key + " " + head) == key
  {
    FieldsOfWord(key);
    FieldsOfConcat(key, ' ', head);
    LineByWords(key + " " + head);
  }

  /** The lines of one written value: one of its key, and the rest of the value. */
  lemma ValueLines(key: string, v: string)
    requires IsKey(key)
    ensures Split(key + " " + v, '\n') == [key + " " + Split(v, '\n')[0]] + Split(v, '\n')[1..]
    ensures LineKey(Split(key + " " + v, '\n')[0]) == key
  {
    assert '\n' !in key + " ";
    SplitAfterPrefix(key + " ", v);
    HeadLineKey(key, Split(v, '\n')[0]);
  }

  lemma PhysicalCons(line: string, rest: seq<string>)
    ensures Physical([line] + rest) == Split(line, '\n') + Physical(rest)
  {
    assert ([line] + rest)[1..] == rest;
  }

  lemma {:induction false} BlockLinesAbsorbed(key: string, vals: seq<string>, update: Update, i: nat)
    requires IsKey(key) && AllAbsorbed(key, update, vals) && i < |Physical(Block(key, vals))|
    ensures Absorbed(key, update, Physical(Block(key, vals))[i])
  {
    if vals != [] {
      var first, rest := Split(key + " " + vals[0], '\n'), Physical(Block(key, vals[1..]));
      BlockCons(key, vals);
      PhysicalCons(key + " " + vals[0], Block(key, vals[1..]));
      ValueLines(key, vals[0]);
      assert TailAbsorbed(key, update, vals[0]);
      if i < |first| {
        assert i > 0 ==> first[i] == Split(vals[0], '\n')[i];
      } else {
        BlockLinesAbsorbed(key, vals[1..], update, i - |first|);
      }
    }
  }

  /** A block starts with a line of its key. */
  lemma BlockHead(key: string, vals: seq<string>)
    requires IsKey(key) && vals != []
    ensures Physical(Block(key, vals)) != [] && LineKey(Physical(Block(key, vals))[0]) == key
  {
    BlockCons(key, vals);
    PhysicalCons(key + " " + vals[0], Block(key, vals[1..]));
    ValueLines(key, vals[0]);
  }

  // ------------------------------------------------ removed keys never matter

  /** Two sets of written keys differ in removed keys at most. */
  ghost predicate SamePresent(update: Update, a: set<string>, b: set<string>) {
    forall key :: key in update && update[key] != [] ==> (key in a <==> key in b)
  }

  lemma {:induction false} RewriteIgnoresRemoved(lines: seq<string>, update: Update, a: set<string>, b: set<string>)
    requires SamePresent(update, a, b)
    ensures Rewrite(lines, update, a) == Rewrite(lines, update, b)
    ensures SamePresent(update, Written(lines, update, a), Written(lines, update, b))
  {
    if lines != [] {
      RewriteIgnoresRemoved(lines[1..], update, Marked(lines[0], update, a), Marked(lines[0], update, b));
    }
  }

  /** Absorbed lines of a written key are dropped. */
  lemma {:induction false} AbsorbedLinesDrop(owner: string, lines: seq<string>, update: Update, written: set<string>)
    requires owner in update && owner in written
    requires forall i :: 0 <= i < |lines| ==> Absorbed(owner, update, lines[i])
    ensures Rewrite(lines, update, written) == [] && SamePresent(update, Written(lines, update, written), written)
  {
    if lines != [] {
      var after := Marked(lines[0], update, written);
      assert Absorbed(owner, update, lines[0]);
      AbsorbedLinesDrop(owner, lines[1..], update, after);
      assert Emitted(lines[0], update, written) == [];
    }
  }

  /** Over the lines of a key's block a write puts the block back. */
  lemma BlockTwice(key: string, update: Update, written: set<string>)
    requires WellFormed(update) && Stable(update) && key in update && update[key] != [] && key !in written
    ensures var lines := Physical(Block(key, update[key]));
            && Rewrite(lines, update, written) == Block(key, update[key])
            && SamePresent(update, Written(lines, update, written), written + {key})
  {
    var lines := Physical(Block(key, update[key]));
    BlockHead(key, update[key]);
    forall i | 0 <= i < |lines[1..]|
      ensures Absorbed(key, update, lines[1..][i])
    {
      BlockLinesAbsorbed(key, update[key], update, i + 1);
    }
    AbsorbedLinesDrop(key, lines[1..], update, written + {key});
  }

  // -------------------------------------------- a stable update, written twice

  lemma ForeignLineTwice(line: string, update: Update, written: set<string>)
    requires '\n' !in line && LineKey(line) !in update
    ensures var kept := Emitted(line, update, written);
            Physical(kept) == kept && Rewrite(kept, update, written) == kept && Written(kept, update, written) == written
  {
    TrimmedLineReadsTheSame(line);
    TrimRightFacts(line, '\r');
    PhysicalOfCleanLines([TrimRight(line, '\r')]);
    RewriteOfOne(TrimRight(line, '\r'), update, written);
  }

  /** Rewriting what the first part left, line by line as a file has them, puts it back. */
  lemma PartsTwice(first: seq<string>, tail: seq<string>, update: Update, written: set<string>, after: set<string>)
    requires Rewrite(Physical(first), update, written) == first
    requires SamePresent(update, Written(Physical(first), update, written), after)
    requires Rewrite(Physical(tail), update, after) == tail
    ensures Rewrite(Physical(first + tail), update, written) == first + tail
    ensures SamePresent(update, Written(Physical(first + tail), update, written), Written(Physical(tail), update, after))
  {
    PhysicalOfConcat(first, tail);
    RewriteOfConcat(Physical(first), Physical(tail), update, written);
    RewriteIgnoresRemoved(Physical(tail), update, Written(Physical(first), update, written), after);
  }

  /** The in-place pass over the lines it has written is the identity, for any set of written keys. */
  lemma {:induction false} RewriteTwice(lines: seq<string>, update: Update, written: set<string>)
    requires WellFormed(update) && Stable(update) && NoNewlines(lines)
    ensures var once := Rewrite(lines, update, written);
            && Rewrite(Physical(once), update, written) == once
            && SamePresent(update, Written(Physical(once), update, written), Written(lines, update, written))
  {
    if lines != [] {
      var key := LineKey(lines[0]);
      var after := Marked(lines[0], update, written);
      var first, tail := Emitted(lines[0], update, written), Rewrite(lines[1..], update, after);
      RewriteTwice(lines[1..], update, after);
      if key !in update {
        ForeignLineTwice(lines[0], update, written);
      } else if key !in written && update[key] != [] {
        BlockTwice(key, update, written);
      }
      PartsTwice(first, tail, update, written, after);
    }
  }

  lemma {:induction false} AppendedTwice(order: seq<string>, update: Update, written: set<string>)
    requires WellFormed(update) && Stable(update)
    requires forall k :: k in order ==> k in update && k !in written
    requires forall i, j :: 0 <= i < j < |order| ==> order[i] != order[j]
    ensures var added := Appended(order, update);
            && Rewrite(Physical(added), update, written) == added
            && SamePresent(update, Written(Physical(added), update, written), written + (set k | k in order))
  {
    if order != [] {
      var key := order[0];
      var after := written + {key};
      AppendedTwice(order[1..], update, after);
      assert after + (set k | k in order[1..]) == written + (set k | k in order);
      if update[key] != [] {
        BlockTwice(key, update, written);
      }
      PartsTwice(Block(key, update[key]), Appended(order[1..], update), update, written, after);
    }
  }

  /** A write over the lines of its own output finds every present key and changes nothing. */
  lemma OutputTwice(lines: seq<string>, update: Update, out: seq<string>)
    requires WellFormed(update) && Stable(update) && NoNewlines(lines) && IsOutput(lines, update, out)
    ensures Rewrite(Physical(out), update, {}) == out
    ensures SamePresent(update, Written(Physical(out), update, {}), update.Keys)
  {
    var found := Written(lines, update, {});
    var order: seq<string> :| IsOrder(order, update.Keys - found) && out == Rewrite(lines, update, {}) + Appended(order, update);
    RewriteTwice(lines, update, {});
    AppendedTwice(order, update, found);
    PartsTwice(Rewrite(lines, update, {}), Appended(order, update), update, {}, found);
  }

  /** Nothing is appended to a file in which every present key was found. */
  lemma NothingMissing(lines: seq<string>, update: Update, out: seq<string>)
    requires IsOutput(lines, update, out) && SamePresent(update, Written(lines, update, {}), update.Keys)
    ensures out == Rewrite(lines, update, {})
  {
    var order: seq<string> :|
      IsOrder(order, update.Keys - Written(lines, update, {})) && out == Rewrite(lines, update, {}) + Appended(order, update);
    AppendedNothing(order, update);
  }

  lemma FinishTwice(out: seq<string>)
    requires out != [] && !HasSuffix(Join(out, "\n"), "\n")
    ensures FinishBody(out + [""]) == FinishBody(out)
  {
    JoinOfConcat(out, [""], "\n");
    assert Join(out, "\n") + "\n" + "" == Join(out, "\n") + "\n";
  }

  /** Writing a stable update again leaves the same bytes, for any file and any append orders. */
  lemma StableIsIdempotent(orig: string, update: Update, once: string, twice: string)
    requires WellFormed(update) && Stable(update)
    requires IsWriteResult(orig, update, once) && IsWriteResult(once, update, twice)
    ensures twice == once
  {
    var lines := Split(orig, '\n');
    var out: seq<string> :| IsOutput(lines, update, out) && once == FinishBody(out);
    var out2: seq<string> :| IsOutput(Split(once, '\n'), update, out2) && twice == FinishBody(out2);
    OutputTwice(lines, update, out);
    LinesOfBody(out);
    BlankLinesStay(Physical(out), update);
    SecondOutput(out, update, out2, Split(once, '\n'));
  }

  lemma SecondOutput(out: seq<string>, update: Update, out2: seq<string>, lines: seq<string>)
    requires WellFormed(update) && IsOutput(lines, update, out2) && lines == Split(FinishBody(out), '\n')
    requires Rewrite(Physical(out), update, {}) == out && SamePresent(update, Written(Physical(out), update, {}), update.Keys)
    ensures FinishBody(out2) == FinishBody(out)
  {
    LinesOfBody(out);
    if out == [] {
      BlankLinesStay([], update);
      BlankLinesStay([""], update);
      assert [] + [""] == [""] && [""] + [""] == ["", ""];
      NothingMissing(lines, update, out2);
      JoinOfConcat([""], [""], "\n");
    } else if HasSuffix(Join(out, "\n"), "\n") {
      NothingMissing(lines, update, out2);
    } else {
      BlankLinesStay(Physical(out), update);
      NothingMissing(lines, update, out2);
      FinishTwice(out);
    }
  }

  lemma NewlineFreeIsStable(update: Update)
    requires NewlineFree(update)
    ensures Stable(update)
  {
    forall key, j | key in update && 0 <= j < |update[key]|
      ensures TailAbsorbed(key, update, update[key][j])
    {
      SplitWithoutSeparator(update[key][j], '\n');
    }
  }

  /** Writing newline-free values again leaves the same bytes. */
  lemma WriteIsIdempotent(orig: string, update: Update, once: string, twice: string)
    requires WellFormed(update) && NewlineFree(update)
    requires IsWriteResult(orig, update, once) && IsWriteResult(once, update, twice)
    ensures twice == once
  {
    NewlineFreeIsStable(update);
    StableIsIdempotent(orig, update, once, twice);
  }

  // --------------------------------------------- an unstable update changes a file

  lemma {:induction false} SomeOrder(keys: set<string>) returns (order: seq<string>)
    ensures IsOrder(order, keys)
    decreases |keys|
  {
    order := [];
    if keys != {} {
      var key :| key in keys;
      var rest := SomeOrder(keys - {key});
      order := [key] + rest;
    }
  }

  lemma SomeOutput(lines: seq<string>, update: Update) returns (out: seq<string>)
    ensures IsOutput(lines, update, out) && Rewrite(lines, update, {}) <= out
  {
    var order := SomeOrder(update.Keys - Written(lines, update, {}));
    out := Rewrite(lines, update, {}) + Appended(order, update);
  }

  /** A line of a present key that is not written yet, or of a key that is not updated, leaves something. */
  lemma {:induction false} SomethingEmitted(lines: seq<string>, update: Update, written: set<string>, i: nat)
    requires i < |lines|
    requires var key := LineKey(lines[i]); key !in update || (key !in written && update[key] != [])
    ensures Rewrite(lines, update, written) != []
  {
    var after := Marked(lines[0], update, written);
    if i > 0 && Emitted(lines[0], update, written) == [] {
      assert lines[1..][i - 1] == lines[i];
      SomethingEmitted(lines[1..], update, after, i - 1);
    }
  }

  /** Where the lines of a block hold a line that is not absorbed. */
  lemma BlockLines(key: string, vals: seq<string>) returns (front: seq<string>)
    requires IsKey(key) && vals != []
    ensures Physical(Block(key, vals)) == front + Physical(Block(key, vals[1..]))
    ensures |front| == |Split(vals[0], '\n')| && front[1..] == Split(vals[0], '\n')[1..]
  {
    front := Split(key + " " + vals[0], '\n');
    BlockCons(key, vals);
    PhysicalCons(key + " " + vals[0], Block(key, vals[1..]));
    ValueLines(key, vals[0]);
  }

  lemma UnabsorbedTail(key: string, update: Update, v: string, front: seq<string>) returns (i: nat)
    requires !TailAbsorbed(key, update, v) && |front| == |Split(v, '\n')| && front[1..] == Split(v, '\n')[1..]
    ensures 0 < i < |front| && !Absorbed(key, update, front[i])
  {
    i :| 1 <= i < |Split(v, '\n')| && !Absorbed(key, update, Split(v, '\n')[i]);
    assert front[1..][i - 1] == front[i];
  }

  lemma {:induction false} UnabsorbedLine(key: string, vals: seq<string>, update: Update) returns (i: nat)
    requires IsKey(key) && !AllAbsorbed(key, update, vals)
    ensures 0 < i < |Physical(Block(key, vals))| && !Absorbed(key, update, Physical(Block(key, vals))[i])
  {
    var front := BlockLines(key, vals);
    var rest := Physical(Block(key, vals[1..]));
    if TailAbsorbed(key, update, vals[0]) {
      var k := UnabsorbedLine(key, vals[1..], update);
      i := |front| + k;
      assert (front + rest)[i] == rest[k];
    } else {
      i := UnabsorbedTail(key, update, vals[0], front);
      assert (front + rest)[i] == front[i];
    }
  }

  /** Over the lines of an unstable block a write puts more than the block. */
  lemma BlockLeavesMore(key: string, update: Update) returns (more: seq<string>)
    requires WellFormed(update) && key in update && !AllAbsorbed(key, update, update[key])
    ensures Rewrite(Physical(Block(key, update[key])), update, {}) == Block(key, update[key]) + more && more != []
  {
    var lines := Physical(Block(key, update[key]));
    BlockHead(key, update[key]);
    var i := UnabsorbedLine(key, update[key], update);
    more := Rewrite(lines[1..], update, {key});
    assert lines[1..][i - 1] == lines[i];
    SomethingEmitted(lines[1..], update, {key}, i - 1);
    assert {} + {key} == {key};
  }

  lemma CommentLine(update: Update, comment: string)
    requires WellFormed(update) && comment in {"#", "##"}
    ensures '\n' !in comment && LineKey(comment) !in update
    ensures TrimRight(comment, '\r') == comment
  {
    assert comment[|comment| - 1] == '#';
    FieldsOfWord(comment);
    LineByWords(comment);
  }

  /** The first write of an update to a file of a line of one key and a comment. */
  lemma FirstWrite(key: string, update: Update, comment: string) returns (orig: string, out: seq<string>, added: seq<string>)
    requires WellFormed(update) && key in update && comment in {"#", "##"}
    ensures IsOutput(Split(orig, '\n'), update, out) && out == Block(key, update[key]) + [comment] + added
  {
    CommentLine(update, comment);
    orig := key + ['\n'] + comment;
    SplitOfConcat(key, '\n', comment);
    SplitWithoutSeparator(key, '\n');
    SplitWithoutSeparator(comment, '\n');
    FieldsOfWord(key);
    LineByWords(key);
    RewriteOfConcat([key], [comment], update, {});
    RewriteOfOne(key, update, {});
    RewriteOfOne(comment, update, Written([key], update, {}));
    assert Rewrite([key] + [comment], update, {}) == Block(key, update[key]) + [comment];
    out := SomeOutput([key] + [comment], update);
    added := out[|Block(key, update[key])| + 1..];
  }

  /** The lines of a finished file start with the lines of its output. */
  lemma LinesStart(out: seq<string>)
    requires out != []
    ensures Physical(out) <= Split(FinishBody(out), '\n')
  {
    LinesOfBody(out);
  }

  /** The line that follows a block in a file. */
  lemma LineAfter(block: seq<string>, next: seq<string>, rest: seq<string>)
    requires next != []
    ensures var n := |Physical(block)|;
            && n < |Split(FinishBody(block + next + rest), '\n')| && Physical(next) != []
            && Split(FinishBody(block + next + rest), '\n')[n] == Physical(next)[0]
  {
    LinesStart(block + next + rest);
    PhysicalOfConcat(block + next, rest);
    PhysicalOfConcat(block, next);
    assert [next[0]] + next[1..] == next;
    PhysicalCons(next[0], next[1..]);
  }

  lemma BlockStarts(block: seq<string>, comment: string, added: seq<string>)
    ensures Physical(block) <= Split(FinishBody(block + [comment] + added), '\n')
  {
    LinesStart(block + [comment] + added);
    PhysicalOfConcat(block + [comment], added);
    PhysicalOfConcat(block, [comment]);
  }

  lemma TailOf(whole: seq<string>, a: seq<string>, b: seq<string>) returns (tail: seq<string>)
    requires a + b <= whole
    ensures whole == a + tail
  {
    tail := whole[|a|..];
    assert a == (a + b)[..|a|] == whole[..|a + b|][..|a|] == whole[..|a|];
  }

  lemma OutputStarts(front: seq<string>, rest: seq<string>, update: Update) returns (out: seq<string>, last: seq<string>)
    ensures IsOutput(front + rest, update, out) && out == Rewrite(front, update, {}) + last
  {
    out := SomeOutput(front + rest, update);
    RewriteOfConcat(front, rest, update, {});
    last := TailOf(out, Rewrite(front, update, {}), Rewrite(rest, update, Written(front, update, {})));
  }

  /** The second write puts something between the block and what followed it. */
  lemma SecondWrite(block: seq<string>, more: seq<string>, comment: string, added: seq<string>, update: Update)
    returns (out: seq<string>, last: seq<string>)
    requires Rewrite(Physical(block), update, {}) == block + more
    ensures IsOutput(Split(FinishBody(block + [comment] + added), '\n'), update, out) && out == block + more + last
  {
    BlockStarts(block, comment, added);
    var lines, front := Split(FinishBody(block + [comment] + added), '\n'), Physical(block);
    assert lines == front + lines[|front|..];
    out, last := OutputStarts(front, lines[|front|..], update);
  }

  lemma DifferentNext(block: seq<string>, more: seq<string>, last: seq<string>, comment: string, added: seq<string>)
    requires more != [] && '\n' !in comment && (Physical(more) != [] ==> Physical(more)[0] != comment)
    ensures FinishBody(block + [comment] + added) != FinishBody(block + more + last)
  {
    PhysicalOfCleanLines([comment]);
    LineAfter(block, [comment], added);
    LineAfter(block, more, last);
  }

  /** Every unstable update changes some file when it is written again. */
  lemma UnstableChangesAFile(update: Update) returns (orig: string, once: string, twice: string)
    requires WellFormed(update) && !Stable(update)
    ensures IsWriteResult(orig, update, once) && IsWriteResult(once, update, twice) && twice != once
  {
    var key :| key in update && !AllAbsorbed(key, update, update[key]);
    var block := Block(key, update[key]);
    var more := BlockLeavesMore(key, update);
    var comment := if Physical(more) != [] && Physical(more)[0] == "#" then "##" else "#";
    CommentLine(update, comment);
    var out, added, out2, last;
    orig, out, added := FirstWrite(key, update, comment);
    out2, last := SecondWrite(block, more, comment, added, update);
    once, twice := FinishBody(out), FinishBody(out2);
    DifferentNext(block, more, last, comment, added);
  }

  /**
   Writing an update twice leaves the same bytes as writing it once, for every file and every
   append order, exactly when every line after the first of every value belongs to the value's
   own key or to a key that the update removes.
   */
  lemma IdempotentExactlyWhenStable(update: Update)
    requires WellFormed(update)
    ensures (forall orig, once, twice :: IsWriteResult(orig, update, once) && IsWriteResult(once, update, twice) ==> twice == once)
            <==> Stable(update)
  {
    if Stable(update) {
      forall orig, once, twice | IsWriteResult(orig, update, once) && IsWriteResult(once, update, twice)
        ensures twice == once
      {
        StableIsIdempotent(orig, update, once, twice);
      }
    } else {
      var orig, once, twice := UnstableChangesAFile(update);
    }
  }

  // ------------------------------------------------------- how much a write leaves

  /** The lines of keys that are not updated. */
  function Foreign(lines: seq<string>, update: Update): nat {
    if lines == [] then 0
    else (if LineKey(lines[0]) in update then 0 else 1) + Foreign(lines[1..], update)
  }

  /** The updated keys that the pass meets for the first time, in order. */
  function Met(lines: seq<string>, update: Update, written: set<string>): seq<string> {
    if lines == [] then []
    else
      var key, rest := LineKey(lines[0]), Met(lines[1..], update, Marked(lines[0], update, written));
      if key in update && key !in written then [key] + rest else rest
  }

  lemma {:induction false} MetIsOrder(lines: seq<string>, update: Update, written: set<string>)
    ensures IsOrder(Met(lines, update, written), Written(lines, update, written) - written)
    ensures written <= Written(lines, update, written) <= written + update.Keys
  {
    if lines != [] {
      MetIsOrder(lines[1..], update, Marked(lines[0], update, written));
    }
  }

  lemma {:induction false} ForeignOfConcat(a: seq<string>, b: seq<string>, update: Update)
    ensures Foreign(a + b, update) == Foreign(a, update) + Foreign(b, update)
  {
    if a == [] {
      assert a + b == b;
    } else {
      assert (a + b)[0] == a[0] && (a + b)[1..] == a[1..] + b;
      ForeignOfConcat(a[1..], b, update);
    }
  }

  /** How many lines the blocks of the keys have, and how many of them are foreign. */
  function BlocksSize(order: seq<string>, update: Update): nat
    requires forall k :: k in order ==> k in update
  {
    if order == [] then 0 else |Physical(Block(order[0], update[order[0]]))| + BlocksSize(order[1..], update)
  }

  function BlocksForeign(order: seq<string>, update: Update): nat
    requires forall k :: k in order ==> k in update
  {
    if order == [] then 0 else Foreign(Physical(Block(order[0], update[order[0]])), update) + BlocksForeign(order[1..], update)
  }

  /** The pass leaves the foreign lines and one block for every key it meets. */
  lemma {:induction false} RewriteSize(lines: seq<string>, update: Update, written: set<string>)
    requires NoNewlines(lines)
    ensures forall k :: k in Met(lines, update, written) ==> k in update
    ensures var out := Physical(Rewrite(lines, update, written));
            && |out| == Foreign(lines, update) + BlocksSize(Met(lines, update, written), update)
            && Foreign(out, update) == Foreign(lines, update) + BlocksForeign(Met(lines, update, written), update)
  {
    MetIsOrder(lines, update, written);
    if lines != [] {
      var key, after := LineKey(lines[0]), Marked(lines[0], update, written);
      var first, rest := Emitted(lines[0], update, written), Rewrite(lines[1..], update, after);
      RewriteSize(lines[1..], update, after);
      PhysicalOfConcat(first, rest);
      ForeignOfConcat(Physical(first), Physical(rest), update);
      if key !in update {
        ForeignLineTwice(lines[0], update, written);
        ForeignOfOne(lines[0], update);
      }
    }
  }

  lemma ForeignOfOne(line: string, update: Update)
    requires LineKey(line) !in update
    ensures Foreign([TrimRight(line, '\r')], update) == 1
  {
    TrimmedLineReadsTheSame(line);
    assert [TrimRight(line, '\r')][1..] == [];
  }

  lemma {:induction false} AppendedSize(order: seq<string>, update: Update)
    requires forall k :: k in order ==> k in update
    ensures |Physical(Appended(order, update))| == BlocksSize(order, update)
    ensures Foreign(Physical(Appended(order, update)), update) == BlocksForeign(order, update)
  {
    if order != [] {
      var block := Block(order[0], update[order[0]]);
      AppendedSize(order[1..], update);
      PhysicalOfConcat(block, Appended(order[1..], update));
      ForeignOfConcat(Physical(block), Physical(Appended(order[1..], update)), update);
    }
  }

  lemma {:induction false} BlocksOfConcat(a: seq<string>, b: seq<string>, update: Update)
    requires forall k :: k in a || k in b ==> k in update
    ensures forall k :: k in a + b ==> k in update
    ensures BlocksSize(a + b, update) == BlocksSize(a, update) + BlocksSize(b, update)
    ensures BlocksForeign(a + b, update) == BlocksForeign(a, update) + BlocksForeign(b, update)
  {
    if a == [] {
      assert a + b == b;
    } else {
      assert (a + b)[0] == a[0] && (a + b)[1..] == a[1..] + b;
      BlocksOfConcat(a[1..], b, update);
    }
  }

  lemma NoKeysNoOrder(order: seq<string>, keys: set<string>)
    requires IsOrder(order, keys)
    ensures keys == {} <==> order == []
  {
    if order != [] {
      assert order[0] in order;
    } else {
      assert forall key :: key in keys ==> key in order;
    }
  }

  lemma BlocksWithout(order: seq<string>, i: nat, update: Update)
    requires i < |order| && forall k :: k in order ==> k in update
    ensures forall k :: k in order[..i] + order[i + 1..] ==> k in update
    ensures BlocksSize(order, update) ==
            |Physical(Block(order[i], update[order[i]]))| + BlocksSize(order[..i] + order[i + 1..], update)
  {
    var one, rest := [order[i]], order[i + 1..];
    assert order == order[..i] + (one + rest);
    BlocksOfConcat(order[..i], one + rest, update);
    BlocksOfConcat(one, rest, update);
    BlocksOfConcat(order[..i], rest, update);
    assert one[1..] == [];
  }

  /** The blocks have the same size in every order. */
  lemma {:induction false} OrderDoesNotMatter(a: seq<string>, b: seq<string>, keys: set<string>, update: Update)
    requires IsOrder(a, keys) && IsOrder(b, keys) && keys <= update.Keys
    ensures BlocksSize(a, update) == BlocksSize(b, update)
    decreases |a|
  {
    NoKeysNoOrder(a, keys);
    NoKeysNoOrder(b, keys);
    if a != [] {
      assert a[0] in a && a[0] in b;
      var i :| 0 <= i < |b| && b[i] == a[0];
      WithoutOne(a, keys, 0);
      WithoutOne(b, keys, i);
      OrderDoesNotMatter(a[..0] + a[1..], b[..i] + b[i + 1..], keys - {a[0]}, update);
      BlocksWithout(a, 0, update);
      BlocksWithout(b, i, update);
    }
  }

  lemma WithoutOne(order: seq<string>, keys: set<string>, i: nat)
    requires IsOrder(order, keys) && i < |order|
    ensures IsOrder(order[..i] + order[i + 1..], keys - {order[i]})
  {
    var rest := order[..i] + order[i + 1..];
    forall k
      ensures k in rest <==> k in keys - {order[i]}
    {
      if k in keys && k != order[i] {
        var j :| 0 <= j < |order| && order[j] == k;
        assert if j < i then rest[j] == k else rest[j - 1] == k;
      }
      if k in rest {
        var j :| 0 <= j < |rest| && rest[j] == k;
        assert order[if j < i then j else j + 1] == k;
      }
    }
  }

  /** An output has the foreign lines of the file and every key's block once, whatever the order. */
  lemma OutputSize(lines: seq<string>, update: Update, out: seq<string>) returns (order: seq<string>)
    requires NoNewlines(lines) && IsOutput(lines, update, out)
    ensures IsOrder(order, update.Keys)
    ensures |Physical(out)| == Foreign(lines, update) + BlocksSize(order, update)
    ensures Foreign(Physical(out), update) == Foreign(lines, update) + BlocksForeign(order, update)
  {
    var found := Written(lines, update, {});
    var missing: seq<string> :| IsOrder(missing, update.Keys - found) && out == Rewrite(lines, update, {}) + Appended(missing, update);
    var met := Met(lines, update, {});
    MetIsOrder(lines, update, {});
    RewriteSize(lines, update, {});
    AppendedSize(missing, update);
    PhysicalOfConcat(Rewrite(lines, update, {}), Appended(missing, update));
    ForeignOfConcat(Physical(Rewrite(lines, update, {})), Physical(Appended(missing, update)), update);
    BlocksOfConcat(met, missing, update);
    order := met + missing;
    OrdersJoin(met, missing, found, update.Keys);
  }

  lemma OrdersJoin(a: seq<string>, b: seq<string>, found: set<string>, keys: set<string>)
    requires IsOrder(a, found - {}) && IsOrder(b, keys - found) && found <= keys
    ensures IsOrder(a + b, keys)
  {
    assert forall i :: 0 <= i < |a| ==> a[i] in a;
    assert forall i :: 0 <= i < |b| ==> b[i] in b;
  }

  /** Some value has a line that belongs to no updated key. */
  ghost predicate HasForeignLine(update: Update) {
    exists key, j, i :: key in update && 0 <= j < |update[key]| && 1 <= i < |Split(update[key][j], '\n')|
                        && LineKey(Split(update[key][j], '\n')[i]) !in update
  }

  lemma {:induction false} ForeignHasLine(lines: seq<string>, update: Update, i: nat)
    requires i < |lines| && LineKey(lines[i]) !in update
    ensures Foreign(lines, update) > 0
  {
    if i > 0 {
      assert lines[1..][i - 1] == lines[i];
      ForeignHasLine(lines[1..], update, i - 1);
    }
  }

  lemma ForeignOfBlock(key: string, vals: seq<string>, update: Update)
    requires vals != []
    ensures Foreign(Physical(Block(key, vals)), update) ==
            Foreign(Split(key + " " + vals[0], '\n'), update) + Foreign(Physical(Block(key, vals[1..])), update)
  {
    BlockCons(key, vals);
    PhysicalCons(key + " " + vals[0], Block(key, vals[1..]));
    ForeignOfConcat(Split(key + " " + vals[0], '\n'), Physical(Block(key, vals[1..])), update);
  }

  lemma TailLine(key: string, v: string, i: nat)
    requires IsKey(key) && 1 <= i < |Split(v, '\n')|
    ensures i < |Split(key + " " + v, '\n')| && Split(key + " " + v, '\n')[i] == Split(v, '\n')[i]
  {
    ValueLines(key, v);
  }

  lemma ForeignInValue(key: string, v: string, update: Update, i: nat)
    requires IsKey(key) && 1 <= i < |Split(v, '\n')| && LineKey(Split(v, '\n')[i]) !in update
    ensures Foreign(Split(key + " " + v, '\n'), update) > 0
  {
    TailLine(key, v, i);
    ForeignHasLine(Split(key + " " + v, '\n'), update, i);
  }

  lemma {:induction false} ForeignInBlock(key: string, vals: seq<string>, update: Update, j: nat)
    requires j < |vals| && Foreign(Split(key + " " + vals[j], '\n'), update) > 0
    ensures Foreign(Physical(Block(key, vals)), update) > 0
  {
    ForeignOfBlock(key, vals, update);
    if j > 0 {
      assert vals[1..][j - 1] == vals[j];
      ForeignInBlock(key, vals[1..], update, j - 1);
    }
  }

  lemma {:induction false} BlocksForeignAt(order: seq<string>, update: Update, key: string)
    requires (forall k :: k in order ==> k in update) && key in order
    ensures BlocksForeign(order, update) >= Foreign(Physical(Block(key, update[key])), update)
  {
    if order[0] != key {
      assert key in order[1..];
      BlocksForeignAt(order[1..], update, key);
    }
  }

  /** Physical lines never have fewer entries than the file they are finished to, bar one empty line. */
  lemma FileSize(out: seq<string>, update: Update)
    requires WellFormed(update) && out != []
    ensures var lines := Split(FinishBody(out), '\n');
            && |Physical(out)| <= |lines|
            && Foreign(lines, update) - Foreign(Physical(out), update) == |lines| - |Physical(out)|
  {
    LinesOfBody(out);
    LineByWords("");
    ForeignOfConcat(Physical(out), [""], update);
    assert [""][1..] == [] && TrimRight("", '\r') == "";
    ForeignOfOne("", update);
  }

  /** With a line that belongs to no updated key, every further write makes the file longer. */
  lemma BrokenValueGrowsFile(orig: string, update: Update, once: string, twice: string)
    requires WellFormed(update) && HasForeignLine(update)
    requires IsWriteResult(orig, update, once) && IsWriteResult(once, update, twice)
    ensures |Split(twice, '\n')| > |Split(once, '\n')|
  {
    var out: seq<string> :| IsOutput(Split(orig, '\n'), update, out) && once == FinishBody(out);
    var out2: seq<string> :| IsOutput(Split(once, '\n'), update, out2) && twice == FinishBody(out2);
    var order := OutputSize(Split(orig, '\n'), update, out);
    var order2 := OutputSize(Split(once, '\n'), update, out2);
    OrderDoesNotMatter(order, order2, update.Keys, update);
    var key, j, i :| key in update && 0 <= j < |update[key]| && 1 <= i < |Split(update[key][j], '\n')|
                     && LineKey(Split(update[key][j], '\n')[i]) !in update;
    ForeignInValue(key, update[key][j], update, i);
    ForeignInBlock(key, update[key], update, j);
    BlocksForeignAt(order, update, key);
    BlocksForeignAt(order2, update, key);
    FileSize(out, update);
    FileSize(out2, update);
  }

  lemma IncludePathIsKey()
    ensures IsKey("OnAccessIncludePath")
  {
  }

  lemma EmbeddedSetting()
    ensures "/a" + "\n" + "User b" == "/a\nUser b" && IsValue("/a\nUser b")
    ensures '\n' !in "/a" && '\n' !in "User b"
  {
  }

  lemma UserLineKey()
    ensures LineKey("User b") == "User"
  {
    assert "User" + " " + "b" == "User b";
    WrittenLine("User", "b");
  }

  /** The concrete case: a path with an embedded second setting, accepted by the checks on values. */
  lemma NewlineGrowsFile(orig: string, once: string, twice: string)
    requires var update := map["OnAccessIncludePath" := ["/a\nUser b"]];
             IsWriteResult(orig, update, once) && IsWriteResult(once, update, twice)
    ensures |Split(twice, '\n')| > |Split(once, '\n')|
  {
    var key, v := "OnAccessIncludePath", "/a\nUser b";
    var update: Update := map[key := [v]];
    IncludePathIsKey();
    EmbeddedSetting();
    UserLineKey();
    SplitOfConcat("/a", '\n', "User b");
    SplitWithoutSeparator("/a", '\n');
    SplitWithoutSeparator("User b", '\n');
    assert "/a" + ['\n'] + "User b" == v;
    assert Split(v, '\n') == ["/a"] + ["User b"];
    assert update[key][0] == v && LineKey(Split(v, '\n')[1]) !in update;
    BrokenValueGrowsFile(orig, update, once, twice);
  }
}
