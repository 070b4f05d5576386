/** Trailing-whitespace normalisation of clean_whitespace.py (`clean_file`),
    the same transform format_all.py applies in its first step. A file is its
    text after newline translation; `readlines` cuts it after each "\n". */
module CleanWhitespace {
  import opened Text

  /** No "\n" in `s` before index `n`. */
  predicate NoNewlineBefore(s: string, n: int)
  {
    forall i :: 0 <= i < n && i < |s| ==> s[i] != '\n'
  }

  /** Length of the first line of `t`: up to and including the first "\n",
      or all of `t`. */
  function LineEnd(t: string): (k: nat)
    requires t != []
    ensures 1 <= k <= |t|
    ensures NoNewlineBefore(t, k - 1)
    ensures k < |t| ==> t[k - 1] == '\n'
  {
    if t[0] == '\n' || |t| == 1 then 1
    else
      var k := LineEnd(t[1..]) + 1;
      assert forall i :: 1 <= i < |t| ==> t[i] == t[1..][i - 1];
      k
  }

  /** A line as `readlines` gives it: no "\n" except possibly as its last character. */
  predicate WellFormedLine(l: string)
  {
    l != [] && NoNewlineBefore(l, |l| - 1)
  }

  predicate EndsInNewline(l: string)
  {
    l != [] && l[|l| - 1] == '\n'
  }

  /** `f.readlines()`. */
  function ReadLines(t: string): (ls: seq<string>)
    ensures ls == [] <==> t == []
    ensures |ls| <= |t|
    ensures forall i :: 0 <= i < |ls| ==> ls[i] != []
    decreases |t|
  {
    if t == [] then []
    else
      var k := LineEnd(t);
      [t[..k]] + ReadLines(t[k..])
  }

  /** Every line `readlines` gives is well formed, and all but the last end in "\n". */
  lemma {:induction false} ReadLinesShape(t: string)
    ensures forall i :: 0 <= i < |ReadLines(t)| ==> WellFormedLine(ReadLines(t)[i])
    ensures forall i :: 0 <= i < |ReadLines(t)| - 1 ==> EndsInNewline(ReadLines(t)[i])
    decreases |t|
  {
    if t != [] {
      var k := LineEnd(t);
      var rest := ReadLines(t[k..]);
      ReadLinesShape(t[k..]);
      var ls := ReadLines(t);
      assert ls == [t[..k]] + rest;
      assert WellFormedLine(ls[0]);
      assert forall i :: 1 <= i < |ls| ==> ls[i] == rest[i - 1];
      if |ls| > 1 {
        assert rest != [] && k < |t|;
        assert EndsInNewline(ls[0]);
      }
    }
  }

  /** `f.writelines(ls)`. */
  function Concat(ls: seq<string>): string
  {
    if ls == [] then [] else ls[0] + Concat(ls[1..])
  }

  lemma SplitJoin(s: string, k: nat)
    requires k <= |s|
    ensures s[..k] + s[k..] == s
  {
  }

  lemma ConcatCons(a: string, r: seq<string>)
    ensures Concat([a] + r) == a + Concat(r)
  {
    assert ([a] + r)[1..] == r;
  }

  lemma {:induction false} ConcatReadLines(t: string)
    ensures Concat(ReadLines(t)) == t
    decreases |t|
  {
    if t != [] {
      var k := LineEnd(t);
      var rest := t[k..];
      assert ReadLines(t) == [t[..k]] + ReadLines(rest);
      ConcatReadLines(rest);
      ConcatCons(t[..k], ReadLines(rest));
      SplitJoin(t, k);
    }
  }

  /** `line.rstrip() + '\n'`. */
  function CleanLine(l: string): string
  {
    RStrip(l) + "\n"
  }

  /** The list comprehension of `clean_file`. */
  function CleanLines(ls: seq<string>): (r: seq<string>)
    ensures |r| == |ls|
    ensures forall i :: 0 <= i < |ls| ==> r[i] == CleanLine(ls[i])
  {
    if ls == [] then [] else [CleanLine(ls[0])] + CleanLines(ls[1..])
  }

  /** `if cleaned_lines and not cleaned_lines[-1].endswith('\n'): cleaned_lines[-1] += '\n'`. */
  function FixUp(ls: seq<string>): seq<string>
  {
    if ls != [] && !EndsWith(ls[|ls| - 1], "\n") then ls[..|ls| - 1] + [ls[|ls| - 1] + "\n"] else ls
  }

  /** The text `clean_file` writes back for a file holding `t`. */
  function CleanFile(t: string): (r: string)
    ensures r == [] <==> t == []
  {
    var ls := FixUp(CleanLines(ReadLines(t)));
    assert ls != [] ==> ls[0] != [] && Concat(ls) == ls[0] + Concat(ls[1..]);
    Concat(ls)
  }

  /** A line in its cleaned form: a "\n" preceded by no whitespace. */
  predicate Clean(l: string)
  {
    EndsInNewline(l) && (|l| == 1 || !IsSpace(l[|l| - 2]))
  }

  /** The transform keeps the number of lines; line i becomes the line with
      its trailing whitespace (its "\n" included) removed and one "\n"
      added, so every output line ends in "\n" with no whitespace before it. */
  lemma {:induction false} CleanLinesSpec(ls: seq<string>)
    ensures |CleanLines(ls)| == |ls|
    ensures forall i :: 0 <= i < |ls| ==> CleanLines(ls)[i] == RStrip(ls[i]) + "\n"
    ensures forall i :: 0 <= i < |ls| ==> Clean(CleanLines(ls)[i])
  {
    if ls != [] {
      CleanLinesSpec(ls[1..]);
      var r := CleanLines(ls);
      assert forall i :: 1 <= i < |ls| ==> r[i] == CleanLines(ls[1..])[i - 1];
      forall i | 0 <= i < |ls| ensures Clean(r[i]) {
        var s := RStrip(ls[i]);
        assert r[i] == s + "\n";
        if |r[i]| > 1 {
          assert r[i][|r[i]| - 2] == s[|s| - 1];
        }
      }
    }
  }

  /** A clean line is its own cleaned form. */
  lemma CleanLineFixed(l: string)
    requires Clean(l)
    ensures CleanLine(l) == l
  {
    var body := l[..|l| - 1];
    assert l == body + "\n";
    assert IsSpace(l[|l| - 1]);
    assert RStrip(l) == RStrip(body);
    RStripFixed(body);
  }

  /** Cleaning cleaned lines changes nothing. */
  lemma {:induction false} CleanLinesIdempotent(ls: seq<string>)
    ensures CleanLines(CleanLines(ls)) == CleanLines(ls)
  {
    if ls != [] {
      CleanLinesIdempotent(ls[1..]);
      CleanLinesSpec(ls);
      CleanLineFixed(CleanLine(ls[0]));
    }
  }

  /** The fix-up of the last line never fires: every cleaned line already
      ends with "\n". */
  lemma FixUpDead(ls: seq<string>)
    ensures FixUp(CleanLines(ls)) == CleanLines(ls)
  {
    CleanLinesSpec(ls);
    var r := CleanLines(ls);
    if r != [] {
      var l := r[|r| - 1];
      assert l[|l| - 1..] == "\n";
    }
  }

  /** A text starting with a complete line reads as that line, then the rest. */
  lemma ReadLinesFirst(first: string, more: string)
    requires EndsInNewline(first) && NoNewlineBefore(first, |first| - 1)
    ensures ReadLines(first + more) == [first] + ReadLines(more)
  {
    var t := first + more;
    var n := |first|;
    assert forall j :: 0 <= j < n ==> t[j] == first[j];
    var k := LineEnd(t);
    assert k == n;
    assert t[..k] == first;
    assert t[k..] == more;
  }

  /** A cleaned line holds one "\n", at its end. */
  lemma CleanLineShape(l: string)
    requires WellFormedLine(l)
    ensures EndsInNewline(CleanLine(l)) && NoNewlineBefore(CleanLine(l), |CleanLine(l)| - 1)
  {
    var s := RStrip(l);
    var c := s + "\n";
    forall j | 0 <= j < |s| ensures c[j] != '\n' {
      assert c[j] == s[j];
      if j == |l| - 1 {
        assert s == l;
        assert !IsSpace(s[j]);
      } else {
        assert s[j] == l[j];
      }
    }
  }

  /** Written out and read back, well-formed cleaned lines come back as they were. */
  lemma {:induction false} ReadLinesConcatClean(ls: seq<string>)
    requires forall i :: 0 <= i < |ls| ==> WellFormedLine(ls[i])
    ensures ReadLines(Concat(CleanLines(ls))) == CleanLines(ls)
  {
    if ls != [] {
      var rest := ls[1..];
      assert forall i :: 0 <= i < |rest| ==> rest[i] == ls[i + 1];
      ReadLinesConcatClean(rest);
      var first := CleanLine(ls[0]);
      assert CleanLines(ls) == [first] + CleanLines(rest);
      ConcatCons(first, CleanLines(rest));
      CleanLineShape(ls[0]);
      ReadLinesFirst(first, Concat(CleanLines(rest)));
    }
  }

  /** `clean_file` keeps the number of lines, leaves every line clean, and a
      second run changes nothing. */
  lemma CleanFileSpec(t: string)
    ensures |ReadLines(CleanFile(t))| == |ReadLines(t)|
    ensures forall i :: 0 <= i < |ReadLines(CleanFile(t))| ==> Clean(ReadLines(CleanFile(t))[i])
    ensures CleanFile(CleanFile(t)) == CleanFile(t)
  {
    var ls := ReadLines(t);
    ReadLinesShape(t);
    FixUpDead(ls);
    CleanLinesSpec(ls);
    ReadLinesConcatClean(ls);
    var cl := CleanLines(ls);
    assert ReadLines(CleanFile(t)) == cl;
    FixUpDead(cl);
    CleanLinesIdempotent(ls);
  }
}
