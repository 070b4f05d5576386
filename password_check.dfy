/** The breached-password lookup of modules/password_check.py, without the
    hashing and the HTTP request: the caller supplies the upper-case SHA-1
    hex digest of the password and what the request produced (a status code
    with the response text already split into lines, or a request
    exception). The digest is split into a 5-character prefix and the rest,
    and the response lines `SUFFIX:COUNT` are scanned for the suffix. */
module PasswordCheck {
  import opened Common
  import opened Text

  /** What the request produced. */
  datatype HttpOutcome = Response(status: int, lines: seq<string>) | RequestError

  /** What `verifier_mot_de_passe_compromis` gives back: `(True, count)`,
      `(False, 0)`, `(None, message)`, or the `ValueError` it raises on a
      response line it cannot read. */
  datatype Verdict = Compromis(count: int) | NonCompromis | Inconnu(message: string) | ValueError

  function Min(a: int, b: int): int
  {
    if a <= b then a else b
  }

  /** `(sha1_hash[:5], sha1_hash[5:])`. */
  function SplitDigest(digest: string): (r: (string, string))
    ensures r.0 + r.1 == digest
    ensures |r.0| == Min(5, |digest|)
  {
    var n := Min(5, |digest|);
    assert digest[..n] + digest[n..] == digest;
    (digest[..n], digest[n..])
  }

  /** Index of the first occurrence of `c` in `s`. */
  function IndexOf(s: string, c: char): (r: Option<nat>)
    ensures r.Some? ==> r.value < |s| && s[r.value] == c && !HasChar(s[..r.value], c)
    ensures r.None? <==> !HasChar(s, c)
  {
    if s == [] then None
    else if s[0] == c then Some(0)
    else match IndexOf(s[1..], c)
      case None =>
        assert forall i :: 0 <= i < |s[1..]| ==> s[1..][i] == s[i + 1];
        None
      case Some(k) =>
        assert forall i :: 0 <= i < k ==> s[1..][..k][i] == s[..k + 1][i + 1];
        Some(k + 1)
  }

  /** `hash_suffixe, count = ligne.split(":")`: defined only when the line
      has exactly one colon (otherwise the unpacking raises `ValueError`). */
  function SplitColon(line: string): (r: Option<(string, string)>)
    ensures r.Some? ==> r.value.0 + ":" + r.value.1 == line
    ensures r.Some? ==> !HasChar(r.value.0, ':') && !HasChar(r.value.1, ':')
    ensures r.None? ==> !HasChar(line, ':') || exists i, j :: 0 <= i < j < |line| && line[i] == ':' && line[j] == ':'
  {
    match IndexOf(line, ':')
    case None => None
    case Some(i) =>
      var rest := line[i + 1..];
      if HasChar(rest, ':') then
        var j :| 0 <= j < |rest| && rest[j] == ':';
        assert line[i + 1 + j] == ':';
        None
      else
        assert line[..i] + ":" + rest == line;
        Some((line[..i], rest))
  }

  /** The line is well formed and names another suffix: the scan goes on. */
  predicate Passes(line: string, suffixe: string)
  {
    SplitColon(line).Some? && SplitColon(line).value.0 != suffixe
  }

  /** The line is well formed, names the suffix, and its count reads as `n`. */
  predicate Hit(line: string, suffixe: string, n: int)
  {
    SplitColon(line).Some? && SplitColon(line).value.0 == suffixe
    && ParseInt(SplitColon(line).value.1) == Some(n)
  }

  /** The loop over `response.text.splitlines()`: the first line naming the
      suffix decides; a line that does not split into two fields, or a
      matching line whose count is not an integer, raises. */
  function Scan(lines: seq<string>, suffixe: string): (r: Verdict)
    ensures !r.Inconnu?
    ensures r.Compromis? || r == ValueError ==> lines != []
  {
    if lines == [] then NonCompromis
    else match SplitColon(lines[0])
      case None => ValueError
      case Some(parts) =>
        if parts.0 == suffixe then
          match ParseInt(parts.1)
          case None => ValueError
          case Some(n) => Compromis(n)
        else Scan(lines[1..], suffixe)
  }

  /** The scan never reports an unknown outcome, and it reports "not
      compromised" exactly when every line is well formed and names another
      suffix. */
  lemma {:induction false} ScanNotFound(lines: seq<string>, suffixe: string)
    ensures !Scan(lines, suffixe).Inconnu?
    ensures Scan(lines, suffixe) == NonCompromis <==> forall j :: 0 <= j < |lines| ==> Passes(lines[j], suffixe)
  {
    if lines != [] && Passes(lines[0], suffixe) {
      ScanNotFound(lines[1..], suffixe);
      assert forall j :: 1 <= j < |lines| ==> lines[j] == lines[1..][j - 1];
    }
  }

  /** A reported count comes from the first line naming the suffix. */
  lemma {:induction false} ScanHitIsFirst(lines: seq<string>, suffixe: string)
    requires Scan(lines, suffixe).Compromis?
    ensures exists k :: 0 <= k < |lines| && Hit(lines[k], suffixe, Scan(lines, suffixe).count)
                        && forall j :: 0 <= j < k ==> Passes(lines[j], suffixe)
  {
    var n := Scan(lines, suffixe).count;
    if Passes(lines[0], suffixe) {
      var rest := lines[1..];
      assert Scan(lines, suffixe) == Scan(rest, suffixe);
      ScanHitIsFirst(rest, suffixe);
      var k :| 0 <= k < |rest| && Hit(rest[k], suffixe, n)
               && forall j :: 0 <= j < k ==> Passes(rest[j], suffixe);
      assert Hit(lines[k + 1], suffixe, n) by {
        assert lines[k + 1] == rest[k];
      }
      forall j | 0 <= j < k + 1 ensures Passes(lines[j], suffixe) {
        if j > 0 {
          assert lines[j] == rest[j - 1];
        }
      }
    } else {
      assert Hit(lines[0], suffixe, n);
    }
  }

  /** Conversely, when line `k` is the first line naming the suffix and its
      count reads as `n`, the scan reports `n`. */
  lemma {:induction false} ScanFindsFirstHit(lines: seq<string>, suffixe: string, k: nat, n: int)
    requires k < |lines| && Hit(lines[k], suffixe, n)
    requires forall j :: 0 <= j < k ==> Passes(lines[j], suffixe)
    ensures Scan(lines, suffixe) == Compromis(n)
  {
    if k > 0 {
      assert Passes(lines[0], suffixe);
      ScanFindsFirstHit(lines[1..], suffixe, k - 1, n);
    }
  }

  /** `verifier_mot_de_passe_compromis`, given the digest and the request's outcome. */
  function VerifierMotDePasseCompromis(digest: string, http: HttpOutcome): (r: Verdict)
    ensures r.Inconnu? <==> http.RequestError? || http.status != 200
    ensures http.Response? && http.status == 200 ==> r == Scan(http.lines, SplitDigest(digest).1)
  {
    match http
    case RequestError => Inconnu("Impossible de contacter l'API.")
    case Response(status, lines) =>
      if status != 200 then Inconnu("Erreur lors de la vérification.")
      else
        ScanNotFound(lines, SplitDigest(digest).1);
        Scan(lines, SplitDigest(digest).1)
  }
}
