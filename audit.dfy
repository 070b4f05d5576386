/** The hard-coded-secret detector `verifier_secrets` of modules/audit.py.
    The files it reads are a map from path to the file's lines (as
    `readlines` gives them); a path absent from the map is a file that does
    not exist. */
module Audit {
  import opened Text

  datatype Pattern = Pattern(motif: string, description: string)

  const Patterns: seq<Pattern> := [
    Pattern("secret_key", "Clé secrète"),
    Pattern("password", "Mot de passe"),
    Pattern("api_key", "Clé API")
  ]

  const Fichiers: seq<string> := ["api.py", "modules/auth.py", "modules/password_check.py"]

  /** One entry of `problemes`: `f"{fichier}:{i} - {description} potentiel"`. */
  datatype Report = Report(fichier: string, ligne: nat, description: string)

  function Message(r: Report): string
  {
    r.fichier + ":" + ShowNat(r.ligne) + " - " + r.description + " potentiel"
  }

  /** The rule of the inner loop: the lower-cased line contains the pattern,
      the line has an `=` and a `"`, and it is not a comment. */
  predicate Flagged(line: string, p: Pattern)
  {
    && Contains(Lower(line), p.motif)
    && HasChar(line, '=')
    && HasChar(line, '"')
    && !StartsWith(Strip(line), "#")
  }

  // ---------------------------------------------------------------------
  // The reports as positions: file index, 1-based line number, pattern
  // index. The detection rule is a parameter `flag`; `verifier_secrets`
  // uses `Flagged`.

  datatype Hit = Hit(fi: nat, ligne: nat, pi: nat)

  /** The hits on line number `i` of file `fi`, in pattern order. */
  function LineHits(fi: nat, i: nat, line: string, pats: seq<Pattern>, flag: (string, Pattern) -> bool): (r: seq<Hit>)
    ensures |r| <= |pats|
    ensures forall h :: h in r ==> h.fi == fi && h.ligne == i && h.pi < |pats|
  {
    if pats == [] then []
    else
      var n := |pats| - 1;
      LineHits(fi, i, line, pats[..n], flag) + (if flag(line, pats[n]) then [Hit(fi, i, n)] else [])
  }

  /** The hits in the lines of file `fi`, numbered from 1. */
  function FileHits(fi: nat, lines: seq<string>, pats: seq<Pattern>, flag: (string, Pattern) -> bool): (r: seq<Hit>)
    ensures forall h :: h in r ==> h.fi == fi && 1 <= h.ligne <= |lines| && h.pi < |pats|
  {
    if lines == [] then []
    else FileHits(fi, lines[..|lines| - 1], pats, flag) + LineHits(fi, |lines|, lines[|lines| - 1], pats, flag)
  }

  /** The hits in every listed file that exists, in list order. */
  function AllHits(files: seq<string>, contents: map<string, seq<string>>, pats: seq<Pattern>,
                   flag: (string, Pattern) -> bool): (r: seq<Hit>)
    ensures forall h :: h in r ==> h.fi < |files| && h.pi < |pats|
  {
    if files == [] then []
    else
      var m := |files| - 1;
      AllHits(files[..m], contents, pats, flag)
      + (if files[m] in contents then FileHits(m, contents[files[m]], pats, flag) else [])
  }

  predicate InRange(files: seq<string>, pats: seq<Pattern>, hs: seq<Hit>)
  {
    forall h :: h in hs ==> h.fi < |files| && h.pi < |pats|
  }

  function Render(files: seq<string>, pats: seq<Pattern>, hs: seq<Hit>): (r: seq<Report>)
    requires InRange(files, pats, hs)
    ensures |r| == |hs|
  {
    if hs == [] then []
    else
      var h := hs[|hs| - 1];
      assert h in hs;
      Render(files, pats, hs[..|hs| - 1]) + [Report(files[h.fi], h.ligne, pats[h.pi].description)]
  }

  lemma {:induction false} RenderAppend(files: seq<string>, pats: seq<Pattern>, a: seq<Hit>, b: seq<Hit>)
    requires InRange(files, pats, a) && InRange(files, pats, b)
    ensures InRange(files, pats, a + b)
    ensures Render(files, pats, a + b) == Render(files, pats, a) + Render(files, pats, b)
  {
    if b != [] {
      var init := b[..|b| - 1];
      RenderAppend(files, pats, a, init);
      assert (a + b)[..|a + b| - 1] == a + init;
    } else {
      assert a + b == a;
    }
  }

  // ---------------------------------------------------------------------
  // The nested loops of `verifier_secrets`

  lemma RenderSnoc(files: seq<string>, pats: seq<Pattern>, hs: seq<Hit>, h: Hit)
    requires InRange(files, pats, hs) && h.fi < |files| && h.pi < |pats|
    ensures InRange(files, pats, hs + [h])
    ensures Render(files, pats, hs + [h]) == Render(files, pats, hs) + [Report(files[h.fi], h.ligne, pats[h.pi].description)]
  {
    assert (hs + [h])[..|hs|] == hs;
  }

  lemma LineHitsStep(fi: nat, i: nat, line: string, pats: seq<Pattern>, k: nat)
    requires k < |pats|
    ensures Flagged(line, pats[k]) ==>
              LineHits(fi, i, line, pats[..k + 1], Flagged) == LineHits(fi, i, line, pats[..k], Flagged) + [Hit(fi, i, k)]
    ensures !Flagged(line, pats[k]) ==>
              LineHits(fi, i, line, pats[..k + 1], Flagged) == LineHits(fi, i, line, pats[..k], Flagged)
  {
    assert pats[..k + 1][..k] == pats[..k];
    assert pats[..k + 1][k] == pats[k];
    var before := LineHits(fi, i, line, pats[..k], Flagged);
    assert before + [] == before;
  }

  /** The innermost loop: the patterns flagged on one line. */
  method ScanLine(files: seq<string>, pats: seq<Pattern>, fi: nat, i: nat, ligne: string) returns (r: seq<Report>)
    requires fi < |files|
    ensures r == Render(files, pats, LineHits(fi, i, ligne, pats, Flagged))
  {
    r := [];
    var k := 0;
    while k < |pats|
      invariant 0 <= k <= |pats|
      invariant r == Render(files, pats, LineHits(fi, i, ligne, pats[..k], Flagged))
    {
      LineHitsStep(fi, i, ligne, pats, k);
      if Flagged(ligne, pats[k]) {
        RenderSnoc(files, pats, LineHits(fi, i, ligne, pats[..k], Flagged), Hit(fi, i, k));
        r := r + [Report(files[fi], i, pats[k].description)];
      }
      k := k + 1;
    }
    assert pats[..k] == pats;
  }

  /** The loop over the lines of one file, numbered from 1. */
  method ScanFile(files: seq<string>, pats: seq<Pattern>, fi: nat, lignes: seq<string>) returns (r: seq<Report>)
    requires fi < |files|
    ensures r == Render(files, pats, FileHits(fi, lignes, pats, Flagged))
  {
    r := [];
    var i := 0;
    while i < |lignes|
      invariant 0 <= i <= |lignes|
      invariant r == Render(files, pats, FileHits(fi, lignes[..i], pats, Flagged))
    {
      assert lignes[..i + 1][..i] == lignes[..i];
      var found := ScanLine(files, pats, fi, i + 1, lignes[i]);
      RenderAppend(files, pats, FileHits(fi, lignes[..i], pats, Flagged), LineHits(fi, i + 1, lignes[i], pats, Flagged));
      r := r + found;
      i := i + 1;
    }
    assert lignes[..i] == lignes;
  }

  /** The outer loop, over the listed files that exist. */
  method ScanAll(files: seq<string>, pats: seq<Pattern>, contents: map<string, seq<string>>) returns (problemes: seq<Report>)
    ensures problemes == Render(files, pats, AllHits(files, contents, pats, Flagged))
  {
    problemes := [];
    var fi := 0;
    while fi < |files|
      invariant 0 <= fi <= |files|
      invariant problemes == Render(files, pats, AllHits(files[..fi], contents, pats, Flagged))
    {
      var fichier := files[fi];
      assert files[..fi + 1][..fi] == files[..fi];
      ghost var before := AllHits(files[..fi], contents, pats, Flagged);
      if fichier in contents {
        var found := ScanFile(files, pats, fi, contents[fichier]);
        RenderAppend(files, pats, before, FileHits(fi, contents[fichier], pats, Flagged));
        problemes := problemes + found;
      } else {
        assert before + [] == before;
      }
      fi := fi + 1;
    }
    assert files[..fi] == files;
  }

  /** `verifier_secrets()`, given the contents of the files that exist:
      the report list, and whether it is empty. */
  method VerifierSecrets(contents: map<string, seq<string>>) returns (ok: bool, problemes: seq<Report>)
    ensures problemes == Render(Fichiers, Patterns, AllHits(Fichiers, contents, Patterns, Flagged))
    ensures ok <==> problemes == []
  {
    problemes := ScanAll(Fichiers, Patterns, contents);
    ok := |problemes| == 0;
  }

  // ---------------------------------------------------------------------
  // What the reports are

  lemma {:induction false} LineHitsIff(fi: nat, i: nat, line: string, pats: seq<Pattern>, flag: (string, Pattern) -> bool, pi: nat)
    ensures Hit(fi, i, pi) in LineHits(fi, i, line, pats, flag) <==> pi < |pats| && flag(line, pats[pi])
  {
    if pats != [] {
      var n := |pats| - 1;
      LineHitsIff(fi, i, line, pats[..n], flag, pi);
    }
  }

  lemma {:induction false} FileHitsIff(fi: nat, lines: seq<string>, pats: seq<Pattern>, flag: (string, Pattern) -> bool,
                                       l: nat, pi: nat)
    ensures Hit(fi, l, pi) in FileHits(fi, lines, pats, flag) <==>
              1 <= l <= |lines| && pi < |pats| && flag(lines[l - 1], pats[pi])
  {
    if lines != [] {
      var n := |lines|;
      FileHitsIff(fi, lines[..n - 1], pats, flag, l, pi);
      LineHitsIff(fi, n, lines[n - 1], pats, flag, pi);
    }
  }

  lemma {:induction false} AllHitsIff(files: seq<string>, contents: map<string, seq<string>>, pats: seq<Pattern>,
                                      flag: (string, Pattern) -> bool, fi: nat, l: nat, pi: nat)
    ensures Hit(fi, l, pi) in AllHits(files, contents, pats, flag) <==>
              && fi < |files| && files[fi] in contents
              && 1 <= l <= |contents[files[fi]]| && pi < |pats|
              && flag(contents[files[fi]][l - 1], pats[pi])
  {
    if files != [] {
      var m := |files| - 1;
      AllHitsIff(files[..m], contents, pats, flag, fi, l, pi);
      if files[m] in contents {
        FileHitsIff(m, contents[files[m]], pats, flag, l, pi);
      }
    }
  }

  /** Reports come in file-list order, then by line, then by pattern. */
  predicate Before(a: Hit, b: Hit)
  {
    a.fi < b.fi || (a.fi == b.fi && (a.ligne < b.ligne || (a.ligne == b.ligne && a.pi < b.pi)))
  }

  predicate Ordered(hs: seq<Hit>)
  {
    forall i, j :: 0 <= i < j < |hs| ==> Before(hs[i], hs[j])
  }

  lemma OrderedAppend(a: seq<Hit>, b: seq<Hit>)
    requires Ordered(a) && Ordered(b)
    requires forall x, y :: x in a && y in b ==> Before(x, y)
    ensures Ordered(a + b)
  {
    var c := a + b;
    forall i, j | 0 <= i < j < |c| ensures Before(c[i], c[j]) {
      if j < |a| {
        assert c[i] == a[i] && c[j] == a[j];
      } else if i >= |a| {
        assert c[i] == b[i - |a|] && c[j] == b[j - |a|];
      } else {
        assert c[i] in a && c[j] in b;
      }
    }
  }

  lemma {:induction false} LineHitsOrdered(fi: nat, i: nat, line: string, pats: seq<Pattern>, flag: (string, Pattern) -> bool)
    ensures Ordered(LineHits(fi, i, line, pats, flag))
  {
    if pats != [] {
      var n := |pats| - 1;
      LineHitsOrdered(fi, i, line, pats[..n], flag);
      OrderedAppend(LineHits(fi, i, line, pats[..n], flag), if flag(line, pats[n]) then [Hit(fi, i, n)] else []);
    }
  }

  lemma {:induction false} FileHitsOrdered(fi: nat, lines: seq<string>, pats: seq<Pattern>, flag: (string, Pattern) -> bool)
    ensures Ordered(FileHits(fi, lines, pats, flag))
  {
    if lines != [] {
      var n := |lines|;
      FileHitsOrdered(fi, lines[..n - 1], pats, flag);
      LineHitsOrdered(fi, n, lines[n - 1], pats, flag);
      OrderedAppend(FileHits(fi, lines[..n - 1], pats, flag), LineHits(fi, n, lines[n - 1], pats, flag));
    }
  }

  lemma {:induction false} AllHitsOrdered(files: seq<string>, contents: map<string, seq<string>>, pats: seq<Pattern>,
                                          flag: (string, Pattern) -> bool)
    ensures Ordered(AllHits(files, contents, pats, flag))
  {
    if files != [] {
      var m := |files| - 1;
      AllHitsOrdered(files[..m], contents, pats, flag);
      if files[m] in contents {
        FileHitsOrdered(m, contents[files[m]], pats, flag);
        OrderedAppend(AllHits(files[..m], contents, pats, flag), FileHits(m, contents[files[m]], pats, flag));
      }
    }
  }

  /** A flagged position: line `l` (1-based) of listed file number `fi`,
      which exists, is flagged for pattern number `pi`. */
  predicate FlaggedAt(contents: map<string, seq<string>>, fi: nat, l: nat, pi: nat)
  {
    && fi < |Fichiers| && Fichiers[fi] in contents
    && 1 <= l <= |contents[Fichiers[fi]]| && pi < |Patterns|
    && Flagged(contents[Fichiers[fi]][l - 1], Patterns[pi])
  }

  /** `verifier_secrets` reports exactly the flagged positions, by file,
      then line, then pattern, each once; it answers True exactly when no
      position is flagged. */
  lemma SecretsSpec(contents: map<string, seq<string>>)
    ensures Ordered(AllHits(Fichiers, contents, Patterns, Flagged))
    ensures forall fi: nat, l: nat, pi: nat ::
              Hit(fi, l, pi) in AllHits(Fichiers, contents, Patterns, Flagged) <==> FlaggedAt(contents, fi, l, pi)
    ensures AllHits(Fichiers, contents, Patterns, Flagged) == [] <==>
              forall fi: nat, l: nat, pi: nat :: !FlaggedAt(contents, fi, l, pi)
  {
    var hs := AllHits(Fichiers, contents, Patterns, Flagged);
    AllHitsOrdered(Fichiers, contents, Patterns, Flagged);
    forall fi: nat, l: nat, pi: nat
      ensures Hit(fi, l, pi) in hs <==> FlaggedAt(contents, fi, l, pi)
    {
      AllHitsIff(Fichiers, contents, Patterns, Flagged, fi, l, pi);
    }
    if hs != [] {
      var h := hs[0];
      assert h in hs;
      assert Hit(h.fi, h.ligne, h.pi) in hs;
    }
  }

  /** Which report stands for which position. */
  lemma {:induction false} RenderAt(files: seq<string>, pats: seq<Pattern>, hs: seq<Hit>, k: nat)
    requires InRange(files, pats, hs) && k < |hs|
    ensures hs[k] in hs
    ensures Render(files, pats, hs)[k] == Report(files[hs[k].fi], hs[k].ligne, pats[hs[k].pi].description)
  {
    if k < |hs| - 1 {
      RenderAt(files, pats, hs[..|hs| - 1], k);
    }
  }
}
