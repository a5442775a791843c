/** Case folding of nicknames and command words. */
module Text {

  /** `tolower` of the C locale. */
  function ToLower(c: char): char {
    if 'A' <= c <= 'Z' then (c as int + 32) as char else c
  }

  function Fold(s: string): (r: string)
    ensures |r| == |s|
    ensures forall i | 0 <= i < |s| :: r[i] == ToLower(s[i])
  {
    seq(|s|, i requires 0 <= i < |s| => ToLower(s[i]))
  }

  method NormalizeNickname(nick: string) returns (result: string)
    ensures result == Fold(nick)
  {
    result := [];
    for i := 0 to |nick|
      invariant |result| == i
      invariant forall j | 0 <= j < i :: result[j] == ToLower(nick[j])
    {
      result := result + [ToLower(nick[i])];
    }
  }

  /** The index-wise comparison decides equality of the folded nicknames. */
  method NicknamesEqual(a: string, b: string) returns (equal: bool)
    ensures equal <==> Fold(a) == Fold(b)
  {
    if |a| != |b| {
      return false;
    }
    for i := 0 to |a|
      invariant forall j | 0 <= j < i :: Fold(a)[j] == Fold(b)[j]
    {
      if ToLower(a[i]) != ToLower(b[i]) {
        assert Fold(a)[i] != Fold(b)[i];
        return false;
      }
    }
    return true;
  }

  /** Folding twice is folding once, so a folded nickname is its own representative. */
  lemma FoldIdempotent(s: string)
    ensures Fold(Fold(s)) == Fold(s)
  {
  }

  const CAPITALS := "ABCDEFGHIJKLMNOPQRSTUVWXYZ"
  const SMALL_LETTERS := "abcdefghijklmnopqrstuvwxyz"

  /** Folding turns the capital letters into the small ones, one for one, and leaves every other character. */
  lemma FoldsCapitals(s: string, i: nat)
    requires i < |s|
    ensures |Fold(s)| == |s|
    ensures s[i] !in CAPITALS ==> Fold(s)[i] == s[i]
    ensures forall k | 0 <= k < 26 && s[i] == CAPITALS[k] :: Fold(s)[i] == SMALL_LETTERS[k]
  {
    Capital(s[i]);
  }

  lemma Capital(c: char)
    ensures 'A' <= c <= 'Z' ==> CAPITALS[c as int - 65] == c && SMALL_LETTERS[c as int - 65] as int == c as int + 32
    ensures forall k | 0 <= k < 26 :: CAPITALS[k] as int == 65 + k
  {
  }
}
