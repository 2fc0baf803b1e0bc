/**
 * The PKCE code verifier and its S256 code challenge (section 4 of RFC 7636),
 * as `generateCodeChallenge` and the first lines of `authenticate` compute them
 * in cmd/auth.go.
 *
 * The cryptographic random source is an oracle: a sequence of `Draw`s, one per
 * call of `rand.Int`. SHA-256 and base64url encoding are function parameters
 * about which nothing is assumed.
 */
module Pkce {
  import opened Wrappers

  newtype byte = b: int | 0 <= b < 256

  const Lower: string := "abcdefghijklmnopqrstuvwxyz"
  const Upper: string := "ABCDEFGHIJKLMNOPQRSTUVWXYZ"
  const Digits: string := "0123456789"
  const Marks: string := "_.-~"

  /** The alphabet `generateCodeChallenge` draws from, in the source's order, written as its four runs. */
  const CharSetText: string := Lower + Upper + Digits + Marks

  /** The unreserved characters of section 4.1 of RFC 7636: ALPHA / DIGIT / "-" / "." / "_" / "~". */
  predicate UnreservedChar(c: char) {
    ('a' <= c <= 'z') || ('A' <= c <= 'Z') || ('0' <= c <= '9') || c == '-' || c == '.' || c == '_' || c == '~'
  }

  predicate Unreserved(b: byte) {
    UnreservedChar(b as int as char)
  }

  /** The character code at position `i` of the alphabet, computed from its four runs. */
  function CodeAt(i: nat): int
    requires i < 66
  {
    if i < 26 then 'a' as int + i
    else if i < 52 then 'A' as int + (i - 26)
    else if i < 62 then '0' as int + (i - 52)
    else ['_' as int, '.' as int, '-' as int, '~' as int][i - 62]
  }

  /** The runs spell out the source's literal. */
  lemma CharSetTextLiteral()
    ensures CharSetText == "abcdefghijklmnopqrstuvwxyzABCDEFGHIJKLMNOPQRSTUVWXYZ0123456789_.-~"
  {
    assert Lower + Upper == "abcdefghijklmnopqrstuvwxyzABCDEFGHIJKLMNOPQRSTUVWXYZ";
    assert Digits + Marks == "0123456789_.-~";
  }

  lemma {:induction false} CharSetTextAt(i: nat)
    requires i < |CharSetText|
    ensures |CharSetText| == 66
    ensures CharSetText[i] as int == CodeAt(i)
  {
    if i < 26 {
      assert CharSetText[i] == Lower[i];
    } else if i < 52 {
      assert CharSetText[i] == Upper[i - 26];
    } else if i < 62 {
      assert CharSetText[i] == Digits[i - 52];
    } else {
      assert CharSetText[i] == Marks[i - 62];
    }
  }

  /** `charSet[i]`: the byte at index `i` of the alphabet. */
  function CharSetByte(i: nat): (b: byte)
    requires i < |CharSetText|
    ensures b as int == CodeAt(i)
    ensures Unreserved(b)
  {
    CharSetTextAt(i);
    CharSetText[i] as int as byte
  }

  /** Distinct positions of the alphabet hold distinct characters. */
  lemma CodeAtInjective(i: nat, j: nat)
    requires i < 66 && j < 66 && CodeAt(i) == CodeAt(j)
    ensures i == j
  {
  }

  /** Every unreserved character sits at exactly one index of the alphabet: the alphabet is the whole of RFC 7636's set, without repeats. */
  lemma {:induction false} CharSetIsUnreservedSet(b: byte)
    ensures Unreserved(b) <==> exists i :: 0 <= i < |CharSetText| && CharSetByte(i) == b
    ensures forall i, j :: 0 <= i < |CharSetText| && 0 <= j < |CharSetText| && CharSetByte(i) == b && CharSetByte(j) == b ==> i == j
  {
    CharSetTextAt(0);
    if Unreserved(b) {
      var c := b as int;
      var i: nat :=
        if 'a' as int <= c <= 'z' as int then c - 'a' as int
        else if 'A' as int <= c <= 'Z' as int then c - 'A' as int + 26
        else if '0' as int <= c <= '9' as int then c - '0' as int + 52
        else if c == '_' as int then 62
        else if c == '.' as int then 63
        else if c == '-' as int then 64
        else 65;
      assert CharSetByte(i) == b;
    }
    forall i, j | 0 <= i < |CharSetText| && 0 <= j < |CharSetText| && CharSetByte(i) == b && CharSetByte(j) == b
      ensures i == j
    {
      CodeAtInjective(i, j);
    }
  }

  /** One call of `rand.Int(rand.Reader, max)`: a value, or the random source's error. */
  datatype Draw = Drawn(index: int) | ReadFailed

  /** `rand.Int` with bound `max` yields values in [0, max). */
  predicate DrawsBelow(rng: seq<Draw>, max: nat) {
    forall k :: 0 <= k < |rng| && rng[k].Drawn? ==> 0 <= rng[k].index < max
  }

  predicate SourceHolds(rng: seq<Draw>) {
    forall k :: 0 <= k < |rng| ==> rng[k].Drawn?
  }

  /** The verifier a run of draws spells out, one alphabet byte per draw. */
  function Verifier(rng: seq<Draw>): (v: seq<byte>)
    requires SourceHolds(rng) && DrawsBelow(rng, |CharSetText|)
    ensures |v| == |rng|
    ensures forall k :: 0 <= k < |v| ==> Unreserved(v[k])
  {
    seq(|rng|, k requires 0 <= k < |rng| => CharSetByte(rng[k].index as nat))
  }

  /**
   * `generateCodeChallenge(l)`: fills an `l`-byte buffer, byte `i` from draw `i`.
   * A failed draw panics, which ends the process; the model returns `None`.
   */
  method GenerateCodeChallenge(l: nat, rng: seq<Draw>) returns (r: Option<seq<byte>>)
    requires l <= |rng| && DrawsBelow(rng, |CharSetText|)
    ensures r.Some? <==> SourceHolds(rng[..l])
    ensures r.Some? ==> |r.value| == l && forall k :: 0 <= k < l ==> Unreserved(r.value[k])
    ensures r.Some? ==> r.value == Verifier(rng[..l])
  {
    var b := new byte[l];
    for i := 0 to l
      invariant forall k :: 0 <= k < i ==> rng[k].Drawn? && b[k] == CharSetByte(rng[k].index as nat)
    {
      match rng[i]
      case ReadFailed =>
        return None;
      case Drawn(num) =>
        b[i] := CharSetByte(num as nat);
    }
    return Some(b[..]);
  }

  /** `strings.TrimRight(s, "=")`: removes every trailing '='. */
  function TrimPadding(s: string): (r: string)
    ensures r <= s
    ensures r == [] || r[|r| - 1] != '='
    ensures forall k :: |r| <= k < |s| ==> s[k] == '='
  {
    if s != [] && s[|s| - 1] == '=' then TrimPadding(s[..|s| - 1]) else s
  }

  /** The three properties above determine the trimmed string: any prefix with them is it. */
  lemma {:induction false} TrimPaddingUnique(s: string, t: string)
    requires t <= s && (t == [] || t[|t| - 1] != '=')
    requires forall k :: |t| <= k < |s| ==> s[k] == '='
    ensures t == TrimPadding(s)
  {
    var r := TrimPadding(s);
    assert t == s[..|t|] && r == s[..|r|];
  }

  lemma TrimPaddingIdempotent(s: string)
    ensures TrimPadding(TrimPadding(s)) == TrimPadding(s)
  {
    TrimPaddingUnique(TrimPadding(s), TrimPadding(s));
  }

  /**
   * The S256 code challenge of section 4.2 of RFC 7636: BASE64URL-ENCODE(SHA256(verifier)),
   * with the padding base64.URLEncoding adds trimmed off (cmd/auth.go:143-146).
   */
  function S256Challenge(verifier: seq<byte>, sha256: seq<byte> -> seq<byte>, base64url: seq<byte> -> string): (c: string)
    ensures c <= base64url(sha256(verifier))
    ensures c == [] || c[|c| - 1] != '='
    ensures forall k :: |c| <= k < |base64url(sha256(verifier))| ==> base64url(sha256(verifier))[k] == '='
  {
    TrimPadding(base64url(sha256(verifier)))
  }
}
