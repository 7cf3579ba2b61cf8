/**
 Which names the archive readers accept, told from their characters: no look-alikes of dots, not
 absolute, no encoded pair of dots, and between separators nothing that is two dots and blanks.
 */
module AcceptedNames {
  import opened EntryNames

  // ---------------------------------------------------------------- what is refused

  /** Slash, backslash, and their full-width forms. */
  predicate Separates(c: char) {
    c in ['/', '\\', '\U{FF0F}', '\U{FF3C}']
  }

  /** White_Space of the Unicode character database. */
  predicate Blank(c: char) {
    || c in ['\t', '\n', '\U{B}', '\U{C}', '\r', ' ', '\U{85}', '\U{A0}', '\U{1680}', '\U{2028}', '\U{2029}']
    || c in ['\U{202F}', '\U{205F}', '\U{3000}']
    || '\U{2000}' <= c <= '\U{200A}'
  }

  predicate AllBlank(s: string) {
    forall i :: 0 <= i < |s| ==> Blank(s[i])
  }

  /** One component of a name: what stands between two separators, or an end. */
  predicate Component(s: string, i: nat, j: nat) {
    && i <= j <= |s|
    && (i == 0 || Separates(s[i - 1])) && (j == |s| || Separates(s[j]))
    && forall k :: i <= k < j ==> !Separates(s[k])
  }

  /** Two dots with blanks around them, at place `k`. */
  predicate ParentAt(s: string, k: nat) {
    k + 2 <= |s| && s[k] == '.' && s[k + 1] == '.' && AllBlank(s[..k]) && AllBlank(s[k + 2..])
  }

  /** The pattern stands at `i`, letters in either case. */
  predicate StandsAt(s: string, pattern: string, i: nat) {
    i + |pattern| <= |s| &&
    forall k :: 0 <= k < |pattern| ==> s[i + k] == pattern[k] || (pattern[k] == 'e' && s[i + k] == 'E')
  }

  predicate LooksLikeDot(c: char) {
    c in ['\U{2024}', '\U{2025}', '\U{FE52}', '\U{FF0E}', '\U{3002}']
  }

  ghost predicate Acceptable(name: string) {
    && (forall i :: 0 <= i < |name| ==> !LooksLikeDot(name[i]))
    && (name == "" || !Separates(name[0]))
    && (forall i: nat ::
          && !StandsAt(name, "%2e%2e", i) && !StandsAt(name, "%2e.", i) && !StandsAt(name, ".%2e", i)
          && !StandsAt(name, "%252e%252e", i) && !StandsAt(name, "%252e.", i) && !StandsAt(name, ".%252e", i))
    && (forall i: nat, j: nat, k: nat :: Component(name, i, j) ==> !ParentAt(name[i..j], k))
  }

  // ---------------------------------------------------------------- trimming

  lemma {:induction false} StartTrimmed(s: string) returns (k: nat)
    ensures k <= |s| && TrimStart(s) == s[k..] && AllBlank(s[..k])
  {
    k := 0;
    if s != "" && IsWhitespace(s[0]) {
      var n := StartTrimmed(s[1..]);
      k := n + 1;
      assert s[1..][n..] == s[k..];
      forall i | 0 <= i < k ensures Blank(s[..k][i]) {
        assert i > 0 ==> s[..k][i] == s[1..][..n][i - 1];
      }
    }
  }

  lemma BlankEnds(s: string, n: nat)
    requires n < |s| && AllBlank(s[..|s| - 1][n..]) && Blank(s[|s| - 1])
    ensures AllBlank(s[n..])
  {
    forall i | 0 <= i < |s| - n ensures Blank(s[n..][i]) {
      assert i < |s| - n - 1 ==> s[n..][i] == s[..|s| - 1][n..][i];
    }
  }

  lemma {:induction false} EndTrimmed(s: string) returns (k: nat)
    ensures k <= |s| && TrimEnd(s) == s[..k] && AllBlank(s[k..])
  {
    k := |s|;
    if s != "" && IsWhitespace(s[|s| - 1]) {
      var init := s[..|s| - 1];
      k := EndTrimmed(init);
      assert init[..k] == s[..k];
      BlankEnds(s, k);
    }
  }

  lemma {:induction false} BlanksBefore(c: string, k: nat)
    requires ParentAt(c, k)
    ensures TrimStart(c) == c[k..]
  {
    if k > 0 {
      assert Blank(c[..k][0]);
      assert c[1..][..k - 1] == c[..k][1..] && c[1..][k + 1..] == c[k + 2..] && c[1..][k - 1..] == c[k..];
      BlanksBefore(c[1..], k - 1);
    }
  }

  lemma {:induction false} BlanksBehind(s: string)
    requires ParentAt(s, 0)
    ensures TrimEnd(s) == ".."
  {
    if |s| == 2 {
      assert s == "..";
    } else {
      var n := |s| - 1;
      assert Blank(s[2..][n - 2]);
      assert s[..n][2..] == s[2..][..n - 2];
      BlanksBehind(s[..n]);
    }
  }

  /** A component means the parent directory exactly when it is two dots and blanks. */
  lemma TrimmedToParent(c: string)
    ensures Trim(c) == ".." <==> exists k: nat :: ParentAt(c, k)
  {
    if Trim(c) == ".." {
      var from := StartTrimmed(c);
      var rest := c[from..];
      var to := EndTrimmed(rest);
      assert rest[..to] == ".." && rest[0] == '.' && rest[1] == '.' && c[from + 2..] == rest[2..];
      assert ParentAt(c, from);
    }
    if k: nat :| ParentAt(c, k) {
      BlanksBefore(c, k);
      assert c[k..][..0] == [] && c[k..][2..] == c[k + 2..];
      BlanksBehind(c[k..]);
    }
  }

  // ---------------------------------------------------------------- components

  /** `c` is the component from `i` to `j`. */
  predicate Part(s: string, i: nat, j: nat, c: string) {
    Component(s, i, j) && c == s[i..j]
  }

  ghost predicate PartAfter(s: string, from: nat, c: string) {
    exists i: nat, j: nat :: i >= from && Part(s, i, j, c)
  }

  lemma PartBehind(s: string, i: nat, j: nat, c: string)
    requires s != "" && 0 < i && (i == 1 ==> Separates(s[0]))
    ensures Part(s, i, j, c) <==> j > 0 && Part(s[1..], i - 1, j - 1, c)
  {
    if i <= j <= |s| {
      assert s[1..][i - 1..j - 1] == s[i..j];
    }
  }

  lemma FirstPart(s: string, j: nat, c: string)
    requires s != "" && !Separates(s[0])
    ensures Part(s, 0, j + 1, [s[0]] + c) <==> Part(s[1..], 0, j, c)
  {
    if j + 1 <= |s| {
      assert s[0..j + 1] == [s[0]] + s[1..][0..j];
      assert ([s[0]] + c)[1..] == c && ([s[0]] + s[1..][0..j])[1..] == s[1..][0..j];
      if Part(s, 0, j + 1, [s[0]] + c) {
        forall k | 0 <= k < j ensures !Separates(s[1..][k]) {
          assert !Separates(s[k + 1]);
        }
      }
    }
  }

  /** The first component starts the name, and the others are all that follow. */
  lemma {:induction false} ComponentsAre(s: string)
    ensures var cs := Components(s);
      Part(s, 0, |cs[0]|, cs[0]) && forall c :: c in cs[1..] <==> PartAfter(s, 1, c)
  {
    var cs := Components(s);
    if s == "" {
      assert forall c :: !PartAfter(s, 1, c);
    } else {
      var rest := Components(s[1..]);
      ComponentsAre(s[1..]);
      if Separates(s[0]) {
        assert cs == [""] + rest && cs[1..] == rest;
        forall c ensures c in rest <==> PartAfter(s, 1, c) {
          AllBehind(s, rest, c);
        }
      } else {
        assert cs == [[s[0]] + rest[0]] + rest[1..] && cs[1..] == rest[1..];
        FirstPart(s, |rest[0]|, rest[0]);
        forall c ensures c in rest[1..] <==> PartAfter(s, 1, c) {
          OthersBehind(s, c);
        }
      }
    }
  }

  lemma AllBehind(s: string, rest: seq<string>, c: string)
    requires s != "" && Separates(s[0]) && rest != []
    requires Part(s[1..], 0, |rest[0]|, rest[0]) && forall d :: d in rest[1..] <==> PartAfter(s[1..], 1, d)
    ensures c in rest <==> PartAfter(s, 1, c)
  {
    assert c in rest <==> c == rest[0] || c in rest[1..];
    if c == rest[0] {
      PartBehind(s, 1, |c| + 1, c);
    } else if c in rest[1..] {
      var i: nat, j: nat :| i >= 1 && Part(s[1..], i, j, c);
      PartBehind(s, i + 1, j + 1, c);
    }
    if i: nat, j: nat :| i >= 1 && Part(s, i, j, c) {
      PartBehind(s, i, j, c);
      if i == 1 {
        OneEnd(s[1..], 0, j - 1, |rest[0]|);
      } else {
        assert Part(s[1..], i - 1, j - 1, c);
      }
    }
  }

  lemma OthersBehind(s: string, c: string)
    requires s != "" && !Separates(s[0])
    ensures PartAfter(s, 1, c) <==> PartAfter(s[1..], 1, c)
  {
    if i: nat, j: nat :| i >= 1 && Part(s, i, j, c) {
      PartBehind(s, i, j, c);
      assert Part(s[1..], i - 1, j - 1, c);
    }
    if i: nat, j: nat :| i >= 1 && Part(s[1..], i, j, c) {
      PartBehind(s, i + 1, j + 1, c);
      assert Part(s, i + 1, j + 1, c);
    }
  }

  /** A component has one end. */
  lemma OneEnd(s: string, i: nat, j: nat, k: nat)
    requires Component(s, i, j) && Component(s, i, k)
    ensures j == k
  {
  }

  lemma ComponentListed(s: string, i: nat, j: nat)
    requires Component(s, i, j)
    ensures s[i..j] in Components(s)
  {
    var cs := Components(s);
    ComponentsAre(s);
    assert Part(s, i, j, s[i..j]);
    if i == 0 {
      OneEnd(s, 0, j, |cs[0]|);
    } else {
      assert s[i..j] in cs[1..];
    }
  }

  lemma ListedComponent(s: string, c: string) returns (i: nat, j: nat)
    requires c in Components(s)
    ensures Part(s, i, j, c)
  {
    var cs := Components(s);
    ComponentsAre(s);
    if c == cs[0] {
      i, j := 0, |c|;
    } else {
      assert c in cs[1..];
      i, j :| i >= 1 && Part(s, i, j, c);
    }
  }

  lemma NoParentMeans(s: string)
    ensures NoParent(s) <==> forall i: nat, j: nat, k: nat :: Component(s, i, j) ==> !ParentAt(s[i..j], k)
  {
    if NoParent(s) {
      forall i: nat, j: nat, k: nat | Component(s, i, j) ensures !ParentAt(s[i..j], k) {
        ComponentListed(s, i, j);
        TrimmedToParent(s[i..j]);
      }
    } else {
      var c :| c in Components(s) && Trim(c) == "..";
      var i, j := ListedComponent(s, c);
      TrimmedToParent(c);
      var k: nat :| ParentAt(c, k);
      assert Component(s, i, j) && ParentAt(s[i..j], k);
    }
  }

  // ---------------------------------------------------------------- patterns

  /** Patterns of digits, signs and the letter `e`. */
  predicate Coded(pattern: string) {
    forall k :: 0 <= k < |pattern| ==> pattern[k] in ['%', '2', '5', 'e', '.']
  }

  lemma FoundInEitherCase(s: string, pattern: string, i: nat)
    requires Coded(pattern)
    ensures OccursAt(Lower(s), pattern, i) <==> StandsAt(s, pattern, i)
  {
    if i + |pattern| <= |s| {
      var part := Lower(s)[i..i + |pattern|];
      forall k | 0 <= k < |pattern|
        ensures part[k] == pattern[k] <==> s[i + k] == pattern[k] || (pattern[k] == 'e' && s[i + k] == 'E')
      {
      }
    }
  }

  lemma NotContained(s: string, pattern: string)
    requires Coded(pattern)
    ensures !Contains(Lower(s), pattern) <==> forall i: nat :: !StandsAt(s, pattern, i)
  {
    forall i: nat ensures OccursAt(Lower(s), pattern, i) <==> StandsAt(s, pattern, i) {
      FoundInEitherCase(s, pattern, i);
    }
    if i: nat :| StandsAt(s, pattern, i) {
      assert OccursAt(Lower(s), pattern, i);
    }
  }

  lemma NoEncodedMeans(s: string)
    ensures NoEncodedDots(s) <==> forall i: nat ::
      && !StandsAt(s, "%2e%2e", i) && !StandsAt(s, "%2e.", i) && !StandsAt(s, ".%2e", i)
      && !StandsAt(s, "%252e%252e", i) && !StandsAt(s, "%252e.", i) && !StandsAt(s, ".%252e", i)
  {
    NotContained(s, "%2e%2e");
    NotContained(s, "%2e.");
    NotContained(s, ".%2e");
    NotContained(s, "%252e%252e");
    NotContained(s, "%252e.");
    NotContained(s, ".%252e");
    assert ENCODED_DOTS == ["%2e%2e", "%252e%252e", "%2e.", ".%2e", "%252e.", ".%252e"];
    assert "%2e%2e" in ENCODED_DOTS && "%2e." in ENCODED_DOTS && ".%2e" in ENCODED_DOTS;
    assert "%252e%252e" in ENCODED_DOTS && "%252e." in ENCODED_DOTS && ".%252e" in ENCODED_DOTS;
  }

  /** A name is accepted exactly when it is acceptable. */
  lemma AcceptedIff(name: string)
    ensures ValidatePathTraversal(name).Ok? <==> Acceptable(name)
  {
    NoParentMeans(name);
    NoEncodedMeans(name);
    assert forall c :: IsSeparator(c) <==> Separates(c);
    assert forall c :: IsLookalikeDot(c) <==> LooksLikeDot(c);
  }
}
