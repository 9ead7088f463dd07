/**
 UncommentCode: find a commented-out block in a file's text and write the text back with the comment
 prefix taken off each of the block's lines.
 */
module Uncomment {
  import opened Prelude

  // bufio.MaxScanTokenSize: a line of that length or more ends the scan.
  const MAX_LINE: nat := 65536

  ghost predicate OccursAt(content: string, target: string, i: nat) {
    i + |target| <= |content| && content[i..i + |target|] == target
  }

  /** strings.Index from a position on. */
  function IndexFrom(content: string, target: string, from: nat): (r: Option<nat>)
    requires from <= |content|
    ensures r.None? ==> forall i | i >= from :: !OccursAt(content, target, i)
    ensures r.Some? ==>
              OccursAt(content, target, r.value) && forall i | from <= i < r.value :: !OccursAt(content, target, i)
    decreases |content| - from
  {
    if from + |target| > |content| then None
    else if content[from..from + |target|] == target then Some(from)
    else if from == |content| then None
    else IndexFrom(content, target, from + 1)
  }

  function LineEnd(s: string): (n: nat)
    ensures n <= |s| && '\n' !in s[..n] && (n < |s| ==> s[n] == '\n')
  {
    if s == "" || s[0] == '\n' then 0 else 1 + LineEnd(s[1..])
  }

  function DropCR(line: string): string {
    if line != "" && line[|line| - 1] == '\r' then line[..|line| - 1] else line
  }

  /** The texts a bufio.Scanner returns: lines without their ends, up to one that is too long. */
  function Scanned(s: string): seq<string>
    decreases |s|
  {
    if s == "" then []
    else
      var n := LineEnd(s);
      if n >= MAX_LINE then []
      else [DropCR(s[..n])] + (if n == |s| then [] else Scanned(s[n + 1..]))
  }

  function TrimPrefix(s: string, prefix: string): string {
    if prefix <= s then s[|prefix|..] else s
  }

  function TrimAll(lines: seq<string>, prefix: string): (r: seq<string>)
    ensures |r| == |lines|
  {
    seq(|lines|, i requires 0 <= i < |lines| => TrimPrefix(lines[i], prefix))
  }

  function Join(lines: seq<string>): string {
    if lines == [] then ""
    else if |lines| == 1 then lines[0]
    else lines[0] + "\n" + Join(lines[1..])
  }

  datatype Outcome = NotFound | NotWritten | Written(content: string)

  /** Only the first occurrence of the target changes, into its scanned lines with the prefix trimmed;
      a target without a first line leaves the file as it is. */
  ghost predicate Uncomments(content: string, target: string, prefix: string, r: Outcome) {
    match IndexFrom(content, target, 0)
    case None => r == NotFound
    case Some(at) =>
      if Scanned(target) == [] then r == NotWritten
      else r == Written(content[..at] + Join(TrimAll(Scanned(target), prefix)) + content[at + |target|..])
  }

  /** Lines are joined by a line feed and nothing else. */
  lemma {:induction false} JoinOfConcat(a: seq<string>, b: seq<string>)
    requires a != [] && b != []
    ensures Join(a + b) == Join(a) + "\n" + Join(b)
    ensures forall line: string :: Join([line]) == line
    decreases |a|
  {
    if |a| == 1 {
      assert (a + b)[0] == a[0] && (a + b)[1..] == b;
    } else {
      assert (a + b)[1..] == a[1..] + b;
      JoinOfConcat(a[1..], b);
    }
  }

  lemma TrimAllAppend(lines: seq<string>, i: nat, prefix: string)
    requires i < |lines|
    ensures Join(TrimAll(lines[..i + 1], prefix))
            == (if i > 0 then Join(TrimAll(lines[..i], prefix)) + "\n" else "") + TrimPrefix(lines[i], prefix)
  {
    assert TrimAll(lines[..i + 1], prefix) == TrimAll(lines[..i], prefix) + [TrimPrefix(lines[i], prefix)];
    if i > 0 {
      JoinOfConcat(TrimAll(lines[..i], prefix), [TrimPrefix(lines[i], prefix)]);
    }
  }

  method UncommentCode(content: string, target: string, prefix: string) returns (r: Outcome)
    ensures Uncomments(content, target, prefix, r)
  {
    hide IndexFrom, Scanned, Join, TrimAll, TrimPrefix;
    var found := IndexFrom(content, target, 0);
    if found.None? {
      return NotFound;
    }
    var idx := found.value;
    var out := content[..idx];
    var lines := Scanned(target);
    if |lines| == 0 {
      return NotWritten;
    }
    var i := 0;
    ghost var text := Join(TrimAll(lines[..i], prefix));
    while true
      invariant 0 <= i < |lines|
      invariant text == Join(TrimAll(lines[..i], prefix))
      invariant out == content[..idx] + (if i > 0 then text + "\n" else "")
      decreases |lines| - i
    {
      out := out + TrimPrefix(lines[i], prefix);
      TrimAllAppend(lines, i, prefix);
      text := Join(TrimAll(lines[..i + 1], prefix));
      i := i + 1;
      if i == |lines| {
        break;
      }
      out := out + "\n";
    }
    assert lines[..i] == lines;
    out := out + content[idx + |target|..];
    return Written(out);
  }

  // ---- commenting out and back ----

  ghost predicate AreLines(lines: seq<string>) {
    lines != [] && forall i | 0 <= i < |lines| :: '\n' !in lines[i]
  }

  function Commented(lines: seq<string>, prefix: string): (r: seq<string>)
    ensures |r| == |lines|
  {
    seq(|lines|, i requires 0 <= i < |lines| => prefix + lines[i])
  }

  predicate EndsInCR(s: string) {
    s != "" && s[|s| - 1] == '\r'
  }

  /** A commented line comes back: it is short enough, does not end in a carriage return, and if it is
      empty the prefix does not lose one either. */
  predicate LineRestores(line: string, prefix: string) {
    && |prefix| + |line| < MAX_LINE
    && !EndsInCR(line)
    && (line == "" && EndsInCR(prefix) ==> |prefix| == 1)
  }

  /** All lines come back; an empty last line needs a prefix to be seen at all. */
  ghost predicate Restorable(lines: seq<string>, prefix: string)
    requires lines != []
  {
    && (forall i | 0 <= i < |lines| :: LineRestores(lines[i], prefix))
    && (prefix == "" ==> lines[|lines| - 1] != "")
  }

  lemma LineEndAt(s: string, n: nat)
    requires n <= |s| && '\n' !in s[..n] && (n < |s| ==> s[n] == '\n')
    ensures LineEnd(s) == n
  {
  }

  lemma LineEndOf(line: string, rest: string)
    requires '\n' !in line
    ensures LineEnd(line) == |line| && LineEnd(line + "\n" + rest) == |line|
  {
    assert line[..|line|] == line && (line + "\n" + rest)[..|line|] == line;
    LineEndAt(line, |line|);
    LineEndAt(line + "\n" + rest, |line|);
  }

  /** Lines are determined by the text they join to. */
  lemma {:induction false} JoinInjective(a: seq<string>, b: seq<string>)
    requires AreLines(a) && AreLines(b) && Join(a) == Join(b)
    ensures a == b
    decreases |a|
  {
    LineEndOf(a[0], if |a| == 1 then "" else Join(a[1..]));
    LineEndOf(b[0], if |b| == 1 then "" else Join(b[1..]));
    assert Join(a)[..LineEnd(Join(a))] == a[0] && Join(b)[..LineEnd(Join(b))] == b[0];
    if |a| == 1 || |b| == 1 {
    } else {
      assert Join(a)[|a[0]| + 1..] == Join(a[1..]) && Join(b)[|b[0]| + 1..] == Join(b[1..]);
      JoinInjective(a[1..], b[1..]);
    }
  }

  /** What the scanner makes of lines: up to the first too long one, without an empty last one. */
  function ScanLines(lines: seq<string>): (r: seq<string>)
    ensures |r| <= |lines|
    ensures forall i | 0 <= i < |r| :: r[i] == DropCR(lines[i])
  {
    if lines == [] || lines == [""] || |lines[0]| >= MAX_LINE then []
    else [DropCR(lines[0])] + ScanLines(lines[1..])
  }

  lemma {:induction false} ScannedOfJoin(lines: seq<string>)
    requires AreLines(lines)
    ensures Scanned(Join(lines)) == ScanLines(lines)
    decreases |lines|
  {
    var line := lines[0];
    if |lines| == 1 {
      LineEndOf(line, "");
      assert line[..|line|] == line;
      assert ScanLines(lines[1..]) == [];
    } else {
      var rest := Join(lines[1..]);
      LineEndOf(line, rest);
      ScannedOfJoin(lines[1..]);
      var s := line + "\n" + rest;
      assert s[..|line|] == line && s[|line| + 1..] == rest;
    }
  }

  ghost predicate AllShort(lines: seq<string>) {
    forall i | 0 <= i < |lines| :: |lines[i]| < MAX_LINE
  }

  lemma AllShortSplits(lines: seq<string>)
    requires lines != []
    ensures AllShort(lines) <==> |lines[0]| < MAX_LINE && AllShort(lines[1..])
  {
    if |lines[0]| < MAX_LINE && AllShort(lines[1..]) {
      assert forall i | 1 <= i < |lines| :: lines[i] == lines[1..][i - 1];
    }
  }

  lemma {:induction false} AllScannedExactly(lines: seq<string>)
    requires lines != []
    ensures |ScanLines(lines)| == |lines| <==> lines[|lines| - 1] != "" && AllShort(lines)
    decreases |lines|
  {
    AllShortSplits(lines);
    if |lines| == 1 {
      assert ScanLines(lines[1..]) == [];
    } else {
      hide AllShort;
      AllScannedExactly(lines[1..]);
    }
  }

  /** One line through commenting, scanning and trimming. */
  lemma LineComesBackExactly(line: string, prefix: string)
    requires |prefix| + |line| < MAX_LINE
    ensures TrimPrefix(DropCR(prefix + line), prefix) == line <==> LineRestores(line, prefix)
  {
    if line == "" {
      assert prefix + line == prefix;
    } else {
      assert EndsInCR(prefix + line) <==> EndsInCR(line);
      assert DropCR(prefix + line) == prefix + DropCR(line);
    }
  }

  lemma LinesComeBackExactly(lines: seq<string>, prefix: string)
    requires lines != []
    ensures TrimAll(ScanLines(Commented(lines, prefix)), prefix) == lines <==> Restorable(lines, prefix)
  {
    var c := Commented(lines, prefix);
    var scanned := ScanLines(c);
    var back := TrimAll(scanned, prefix);
    AllScannedExactly(c);
    if |scanned| == |lines| {
      forall i | 0 <= i < |lines| ensures back[i] == lines[i] <==> LineRestores(lines[i], prefix) {
        assert |c[i]| < MAX_LINE;
        LineComesBackExactly(lines[i], prefix);
      }
    } else if forall i | 0 <= i < |lines| :: LineRestores(lines[i], prefix) {
      assert forall i | 0 <= i < |c| :: |c[i]| < MAX_LINE;
    }
  }

  /** No returned text holds a line break, nor does any part of it. */
  lemma TrimmedHasNoBreak(line: string, prefix: string)
    requires '\n' !in line
    ensures '\n' !in TrimPrefix(DropCR(line), prefix)
  {
  }

  lemma SamePartsExactly(before: string, x: string, y: string, after: string)
    ensures before + x + after == before + y + after <==> x == y
  {
    if before + x + after == before + y + after {
      assert (before + x + after)[|before|..|before| + |x|] == x;
      assert (before + y + after)[|before|..|before| + |y|] == y;
    }
  }

  /** ROUND TRIP: a text commented out line by line and uncommented again comes back exactly when no
      line of it ends in a carriage return, no commented line reaches the scanner's limit, and neither an
      empty prefix nor one that ends in a carriage return meets an empty line it hides.  In every other
      case the file is rewritten without those characters or lines, or not rewritten at all. */
  lemma UncommentRestoresExactly(before: string, lines: seq<string>, after: string, prefix: string, r: Outcome)
    requires AreLines(lines) && '\n' !in prefix
    requires IndexFrom(before + Join(Commented(lines, prefix)) + after, Join(Commented(lines, prefix)), 0)
             == Some(|before|)
    requires Uncomments(before + Join(Commented(lines, prefix)) + after, Join(Commented(lines, prefix)), prefix, r)
    ensures r == Written(before + Join(lines) + after) <==> Restorable(lines, prefix)
  {
    hide IndexFrom, Join, TrimPrefix, DropCR, LineRestores, Restorable, Scanned;
    var c := Commented(lines, prefix);
    var target := Join(c);
    var content := before + target + after;
    assert content[..|before|] == before && content[|before| + |target|..] == after;
    ScannedOfJoin(c);
    LinesComeBackExactly(lines, prefix);
    var back := TrimAll(ScanLines(c), prefix);
    if back != [] {
      forall i | 0 <= i < |back| ensures '\n' !in back[i] {
        TrimmedHasNoBreak(c[i], prefix);
      }
      SamePartsExactly(before, Join(back), Join(lines), after);
      if Join(back) == Join(lines) {
        JoinInjective(back, lines);
      }
    }
  }

  /** The only failure is a target that occurs nowhere; an empty one occurs everywhere and is not written. */
  lemma NotFoundExactly(content: string, target: string, prefix: string, r: Outcome)
    requires Uncomments(content, target, prefix, r)
    ensures r == NotFound <==> forall i: nat :: !OccursAt(content, target, i)
    ensures target == "" ==> r == NotWritten
  {
    assert Scanned("") == [];
    hide IndexFrom, Scanned, Join, TrimAll;
    if target == "" {
      assert OccursAt(content, target, 0);
    }
  }

  lemma {:induction false} ScanStopsAtTooLong(lines: seq<string>, n: nat)
    requires n <= |lines| && forall i | 0 <= i < |lines| :: lines[i] != ""
    requires forall i | 0 <= i < n :: |lines[i]| < 65536
    requires n < |lines| ==> |lines[n]| >= 65536
    ensures |ScanLines(lines)| == n
    decreases n
  {
    if n == 0 {
    } else {
      ScanStopsAtTooLong(lines[1..], n - 1);
    }
  }

  /** The line `kept` is what is left of a commented line: all of it, less one carriage return at its end. */
  predicate LeftOf(line: string, kept: string) {
    (line == kept && !EndsInCR(kept)) || line == kept + "\r"
  }

  lemma CommentedLineLeft(line: string, prefix: string, kept: string)
    requires LeftOf(line, kept) && !EndsInCR(prefix)
    ensures TrimPrefix(DropCR(prefix + line), prefix) == kept
  {
    assert DropCR(prefix + line) == prefix + kept;
  }

  /** THE OUTCOME for any commented text: the block becomes its lines up to the first that is too long for
      the scanner, each less one carriage return at its end; if the first already is, nothing is written. */
  lemma UncommentOutcome(
    before: string, lines: seq<string>, after: string, prefix: string, kept: seq<string>, r: Outcome)
    requires AreLines(lines) && '\n' !in prefix && prefix != "" && !EndsInCR(prefix)
    requires IndexFrom(before + Join(Commented(lines, prefix)) + after, Join(Commented(lines, prefix)), 0)
             == Some(|before|)
    requires Uncomments(before + Join(Commented(lines, prefix)) + after, Join(Commented(lines, prefix)), prefix, r)
    requires |kept| <= |lines| && forall i | 0 <= i < |kept| :: LeftOf(lines[i], kept[i])
    requires forall i | 0 <= i < |kept| :: |prefix| + |lines[i]| < 65536
    requires |kept| < |lines| ==> |prefix| + |lines[|kept|]| >= 65536
    ensures r == if kept == [] then NotWritten else Written(before + Join(kept) + after)
  {
    hide IndexFrom, Join, TrimPrefix, DropCR, LeftOf, Scanned;
    var c := Commented(lines, prefix);
    var target := Join(c);
    var content := before + target + after;
    assert content[..|before|] == before && content[|before| + |target|..] == after;
    ScannedOfJoin(c);
    ScanStopsAtTooLong(c, |kept|);
    forall i | 0 <= i < |kept| ensures TrimAll(ScanLines(c), prefix)[i] == kept[i] {
      CommentedLineLeft(lines[i], prefix, kept[i]);
    }
    assert TrimAll(ScanLines(c), prefix) == kept;
  }

  lemma {:induction false} ScannedHasNoBreak(s: string)
    ensures forall i | 0 <= i < |Scanned(s)| :: '\n' !in Scanned(s)[i]
    decreases |s|
  {
    if s == "" {
    } else {
      var n := LineEnd(s);
      if n < |s| {
        ScannedHasNoBreak(s[n + 1..]);
      }
    }
  }

  lemma BreakNotPrefix(line: string, prefix: string)
    requires '\n' !in line && '\n' in prefix
    ensures !(prefix <= line)
  {
    assert forall i | 0 <= i < |line| :: line[i] != '\n';
  }

  /** A prefix that holds a line break is on no line, so it is never stripped: it acts as an empty one. */
  lemma LineBreakPrefixStripsNothing(content: string, target: string, prefix: string, r: Outcome)
    requires '\n' in prefix
    ensures Uncomments(content, target, prefix, r) <==> Uncomments(content, target, "", r)
  {
    hide IndexFrom, Join, Scanned;
    ScannedHasNoBreak(target);
    var lines := Scanned(target);
    forall i | 0 <= i < |lines| ensures !(prefix <= lines[i]) {
      BreakNotPrefix(lines[i], prefix);
    }
    assert TrimAll(lines, prefix) == lines == TrimAll(lines, "");
  }
}
