/** Sanitizing and validating channel names. */
module ChannelNames {
  import opened Text

  predicate IsPrefix(c: char) {
    c == '#' || c == '&' || c == '!' || c == '+'
  }

  predicate IsAlphanumeric(c: char) {
    'a' <= c <= 'z' || 'A' <= c <= 'Z' || '0' <= c <= '9'
  }

  predicate IsValidChar(c: char) {
    || IsAlphanumeric(c)
    || c == '-' || c == '_' || c == '[' || c == ']' || c == '{' || c == '}'
    || c == '^' || c == '`' || c == '|' || c == '~'
  }

  /** `isspace` of the C locale: space, and tab to carriage return. */
  predicate IsSpace(c: char) {
    c == ' ' || 9 <= c as int <= 13
  }

  /** A name that join accepts: a prefix character and something after it. */
  predicate IsValidName(name: string) {
    name != [] && IsPrefix(name[0]) && |name| > 1
  }

  /** The valid characters of `s`, in order. */
  function Kept(s: string): string {
    if s == [] then []
    else
      var rest := Kept(s[..|s| - 1]);
      if IsValidChar(s[|s| - 1]) then rest + [s[|s| - 1]] else rest
  }

  /** Where the first prefix character stands; |s| if there is none. */
  function FirstPrefix(s: string): (p: nat)
    ensures p <= |s|
    ensures forall i | 0 <= i < p :: !IsPrefix(s[i])
    ensures p < |s| ==> IsPrefix(s[p])
  {
    if s == [] || IsPrefix(s[0]) then 0 else 1 + FirstPrefix(s[1..])
  }

  /** What the sanitizer is for: drop everything that is not a valid character, and turn the first
      prefix character into '#', or put '#' in front when there is none. */
  function Sanitized(s: string): string {
    var p := FirstPrefix(s);
    if p < |s| then Kept(s[..p]) + "#" + Kept(s[p + 1..]) else "#" + Kept(s)
  }

  method Sanitize(input: string) returns (result: string)
    ensures result == Sanitized(input)
  {
    if input == [] {
      return "#";
    }
    result := [];
    var hasPrefix, prefixAdded := false, false;
    ghost var p := FirstPrefix(input);
    for i := 0 to |input|
      invariant hasPrefix <==> p < i
      invariant hasPrefix ==> prefixAdded
      invariant result == if hasPrefix then Kept(input[..p]) + "#" + Kept(input[p + 1..i])
                          else Kept(input[..i])
    {
      var c := input[i];
      assert input[..i + 1][..i] == input[..i];
      if hasPrefix {
        assert input[p + 1..i + 1][..i - p - 1] == input[p + 1..i];
      }
      if !prefixAdded && IsSpace(c) {
        continue;
      }
      if IsPrefix(c) {
        if !hasPrefix {
          result := result + ['#'];
          hasPrefix, prefixAdded := true, true;
        }
        continue;
      }
      prefixAdded := true;
      if !IsValidChar(c) {
        continue;
      }
      result := result + [c];
    }
    assert input[..|input|] == input;
    if !hasPrefix {
      result := ['#'] + result;
    } else {
      assert input[p + 1..|input|] == input[p + 1..];
    }
  }

  // ----- Properties of the result ---------------------------------------------

  ghost predicate AllValid(s: string) {
    forall i | 0 <= i < |s| :: IsValidChar(s[i])
  }

  ghost predicate NoneValid(s: string) {
    forall i | 0 <= i < |s| :: !IsValidChar(s[i])
  }

  /** A channel key: '#' followed by one or more valid characters. */
  ghost predicate IsKey(name: string) {
    |name| > 1 && name[0] == '#' && AllValid(name[1..])
  }

  lemma {:induction false} KeptIsValid(s: string)
    ensures AllValid(Kept(s))
  {
    if s != [] {
      KeptIsValid(s[..|s| - 1]);
    }
  }

  lemma {:induction false} KeptOfValid(s: string)
    requires AllValid(s)
    ensures Kept(s) == s
  {
    if s != [] {
      KeptOfValid(s[..|s| - 1]);
      assert s == s[..|s| - 1] + [s[|s| - 1]];
    }
  }

  lemma {:induction false} FirstPrefixAfter(a: string, b: string)
    requires AllValid(a)
    ensures FirstPrefix(a + "#" + b) == |a|
  {
    var s := a + "#" + b;
    assert s[|a|] == '#';
    assert forall i | 0 <= i < |a| :: s[i] == a[i];
  }

  /** Every result consists of valid characters around a single '#'. */
  lemma SanitizedShape(s: string) returns (a: string, b: string)
    ensures Sanitized(s) == a + "#" + b && AllValid(a) && AllValid(b)
  {
    var p := FirstPrefix(s);
    if p < |s| {
      a, b := Kept(s[..p]), Kept(s[p + 1..]);
      KeptIsValid(s[..p]);
      KeptIsValid(s[p + 1..]);
    } else {
      a, b := [], Kept(s);
      KeptIsValid(s);
      assert a + "#" + b == "#" + b;
    }
  }

  lemma SanitizeIdempotent(s: string)
    ensures Sanitized(Sanitized(s)) == Sanitized(s)
  {
    var a, b := SanitizedShape(s);
    var r := a + "#" + b;
    FirstPrefixAfter(a, b);
    assert r[..|a|] == a && r[|a| + 1..] == b;
    KeptOfValid(a);
    KeptOfValid(b);
  }

  /** A sanitized name that passes validation is a channel key, whatever was typed. */
  lemma AcceptedNameIsKey(s: string)
    requires IsValidName(Sanitized(s))
    ensures IsKey(Sanitized(s))
  {
    var a, b := SanitizedShape(s);
    if a != [] {
      assert false;
    }
    assert (a + "#" + b)[1..] == b;
  }

  lemma {:induction false} KeptEmpty(s: string)
    ensures Kept(s) == [] <==> NoneValid(s)
  {
    if s != [] {
      KeptEmpty(s[..|s| - 1]);
    }
  }

  /** Contrary to its description, the result need not begin with '#': it does exactly when no valid
      character stands before the first prefix character. */
  lemma SanitizedStartsWithHash(s: string)
    ensures Sanitized(s) != []
    ensures Sanitized(s)[0] == '#' <==> FirstPrefix(s) == |s| || NoneValid(s[..FirstPrefix(s)])
  {
    var p := FirstPrefix(s);
    if p < |s| {
      KeptEmpty(s[..p]);
      KeptIsValid(s[..p]);
      Head(Kept(s[..p]), Kept(s[p + 1..]));
    }
  }

  lemma Head(a: string, b: string)
    requires AllValid(a)
    ensures (a + "#" + b)[0] == '#' <==> a == []
  {
  }

  lemma SanitizedWithoutHash()
    ensures Sanitized("ab#cd") == "ab#cd" && !IsValidName(Sanitized("ab#cd"))
  {
    FirstPrefixAfter("ab", "cd");
    KeptOfValid("ab");
    KeptOfValid("cd");
    assert "ab" + "#" + "cd" == "ab#cd";
    assert "ab#cd"[..2] == "ab" && "ab#cd"[3..] == "cd";
  }

  // ----- What the sanitizer does, spelled out -------------------------------------------------------------

  lemma Letters(c: char)
    ensures c in SMALL_LETTERS <==> 'a' <= c <= 'z'
    ensures c in CAPITALS <==> 'A' <= c <= 'Z'
  {
    assert forall k | 0 <= k < 26 :: SMALL_LETTERS[k] as int == 97 + k && CAPITALS[k] as int == 65 + k;
    if 'a' <= c <= 'z' {
      assert SMALL_LETTERS[c as int - 97] == c;
    } else if 'A' <= c <= 'Z' {
      assert CAPITALS[c as int - 65] == c;
    }
  }

  /** These and no others may stand in a channel name. */
  lemma ValidChars(c: char)
    ensures IsValidChar(c) <==> c in SMALL_LETTERS || c in CAPITALS || c in "0123456789" || c in "-_[]{}^`|~"
  {
    Letters(c);
    assert forall k | 0 <= k < 10 :: "0123456789"[k] as int == 48 + k;
    if '0' <= c <= '9' {
      assert "0123456789"[c as int - 48] == c;
    }
  }

  lemma PrefixChars(c: char)
    ensures IsPrefix(c) <==> c in "#&!+"
  {
  }

  /** Filtering goes piece by piece. */
  lemma {:induction false} KeptConcat(a: string, b: string)
    ensures Kept(a + b) == Kept(a) + Kept(b)
    decreases |b|
  {
    if b == [] {
      assert a + b == a;
    } else {
      var n := |b| - 1;
      assert (a + b)[..|a + b| - 1] == a + b[..n];
      KeptConcat(a, b[..n]);
    }
  }

  /** A single character is kept exactly if it is valid. */
  lemma KeptOne(c: char)
    ensures Kept([c]) == if IsValidChar(c) then [c] else []
  {
  }

  lemma {:induction false} FirstPrefixAt(a: string, c: char, b: string)
    requires (forall i | 0 <= i < |a| :: !IsPrefix(a[i])) && IsPrefix(c)
    ensures FirstPrefix(a + [c] + b) == |a|
  {
    var s := a + [c] + b;
    assert s[|a|] == c && forall i | 0 <= i < |a| :: s[i] == a[i];
  }

  /** The first prefix character becomes '#', whichever it is and wherever it stands, and of what is before
      and behind it the valid characters are kept; without one, '#' is put in front. */
  lemma SanitizedParts(a: string, c: char, b: string)
    requires forall i | 0 <= i < |a| :: !IsPrefix(a[i])
    ensures Sanitized(a) == "#" + Kept(a)
    ensures IsPrefix(c) ==> Sanitized(a + [c] + b) == Kept(a) + "#" + Kept(b)
  {
    if IsPrefix(c) {
      var s := a + [c] + b;
      FirstPrefixAt(a, c, b);
      assert s[..|a|] == a && s[|a| + 1..] == b;
    }
  }
}
