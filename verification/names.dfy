/** `validate_path_traversal` of `src/archive/tar.rs`, and what it is good for: an accepted
    name never climbs out of the directory it is resolved in, and joining accepted names
    gives an accepted name. */
module EntryNames {
  import opened Prelude
  import opened Bytes

  predicate IsSeparator(c: char) {
    c == '/' || c == '\\' || c == '\U{FF0F}' || c == '\U{FF3C}'
  }

  predicate IsLookalikeDot(c: char) {
    c == '\U{2024}' || c == '\U{2025}' || c == '\U{FE52}' || c == '\U{FF0E}' || c == '\U{3002}'
  }

  /** `char::is_whitespace`. */
  predicate IsWhitespace(c: char) {
    || '\U{9}' <= c <= '\U{D}' || c == ' ' || c == '\U{85}' || c == '\U{A0}' || c == '\U{1680}'
    || '\U{2000}' <= c <= '\U{200A}' || c == '\U{2028}' || c == '\U{2029}' || c == '\U{202F}'
    || c == '\U{205F}' || c == '\U{3000}'
  }

  function TrimStart(s: string): string {
    if s != "" && IsWhitespace(s[0]) then TrimStart(s[1..]) else s
  }

  function TrimEnd(s: string): string {
    if s != "" && IsWhitespace(s[|s| - 1]) then TrimEnd(s[..|s| - 1]) else s
  }

  function Trim(s: string): string {
    TrimEnd(TrimStart(s))
  }

  /** `to_lowercase` as far as the patterns below can tell. */
  function Lower(s: string): (r: string)
    ensures |r| == |s|
  {
    seq(|s|, i requires 0 <= i < |s| => if 'A' <= s[i] <= 'Z' then (s[i] as int + 32) as char else s[i])
  }

  predicate Contains(s: string, pattern: string) {
    exists i: nat | i <= |s| :: OccursAt(s, pattern, i)
  }

  predicate OccursAt(s: string, pattern: string, i: nat) {
    i + |pattern| <= |s| && s[i..i + |pattern|] == pattern
  }

  const ENCODED_DOTS: seq<string> := ["%2e%2e", "%252e%252e", "%2e.", ".%2e", "%252e.", ".%252e"]

  /** `name.split([...])`. */
  function Components(s: string): (r: seq<string>)
    ensures r != []
  {
    if s == "" then [""]
    else
      var rest := Components(s[1..]);
      if IsSeparator(s[0]) then [""] + rest else [[s[0]] + rest[0]] + rest[1..]
  }

  predicate NoLookalikes(s: string) {
    forall c :: c in s ==> !IsLookalikeDot(c)
  }

  predicate NoEncodedDots(s: string) {
    forall p :: p in ENCODED_DOTS ==> !Contains(Lower(s), p)
  }

  predicate NoParent(s: string) {
    forall c :: c in Components(s) ==> Trim(c) != ".."
  }

  predicate Relative(s: string) {
    s == "" || !IsSeparator(s[0])
  }

  predicate ValidName(s: string) {
    NoLookalikes(s) && Relative(s) && NoEncodedDots(s) && NoParent(s)
  }

  function ValidatePathTraversal(name: string): Result<(), ArchiveError> {
    if !NoLookalikes(name) then Err(PathTraversal(name))
    else if !Relative(name) then Err(PathTraversal(name))
    else if !NoEncodedDots(name) then Err(PathTraversal(name))
    else if !NoParent(name) then Err(PathTraversal(name))
    else Ok(())
  }

  // ---------------------------------------------------------------- resolving a name

  /** The directory depth after following the components of a path from depth `depth`, or
      nothing once it has climbed above the start. */
  function Resolve(depth: nat, components: seq<string>): Option<nat>
    decreases components
  {
    if components == [] then
      Some(depth)
    else if components[0] == ".." then
      if depth == 0 then None else Resolve(depth - 1, components[1..])
    else if components[0] == "" || components[0] == "." then
      Resolve(depth, components[1..])
    else
      Resolve(depth + 1, components[1..])
  }

  lemma {:induction false} ResolveStays(depth: nat, components: seq<string>)
    requires forall c :: c in components ==> c != ".."
    ensures Resolve(depth, components).Some? && Resolve(depth, components).value >= depth
    decreases components
  {
    if components != [] {
      assert components[0] in components && forall c :: c in components[1..] ==> c in components;
      ResolveStays(if components[0] == "" || components[0] == "." then depth else depth + 1, components[1..]);
    }
  }

  lemma TrimParent()
    ensures Trim("..") == ".."
  {
  }

  /** An accepted name stays inside the directory it is extracted to. */
  lemma ValidNameStaysInside(name: string)
    requires ValidatePathTraversal(name).Ok?
    ensures Relative(name) && Resolve(0, Components(name)).Some?
  {
    TrimParent();
    ResolveStays(0, Components(name));
  }

  // ---------------------------------------------------------------- nested names

  lemma ComponentsCons(c: char, s: string)
    ensures Components([c] + s) ==
      if IsSeparator(c) then [""] + Components(s) else [[c] + Components(s)[0]] + Components(s)[1..]
  {
    assert ([c] + s)[1..] == s;
  }

  lemma {:induction false} ComponentsJoin(a: string, b: string)
    ensures Components(a + "/" + b) == Components(a) + Components(b)
  {
    if a == "" {
      assert a + "/" + b == ['/'] + b;
      ComponentsCons('/', b);
    } else {
      var c, rest := a[0], a[1..];
      assert a == [c] + rest && a + "/" + b == [c] + (rest + "/" + b);
      ComponentsJoin(rest, b);
      ComponentsCons(c, rest);
      ComponentsCons(c, rest + "/" + b);
    }
  }

  lemma LowerJoin(a: string, b: string)
    ensures Lower(a + "/" + b) == Lower(a) + "/" + Lower(b)
  {
  }

  /** Whatever an occurrence covers is in the pattern. */
  lemma CoveredIsInPattern(s: string, pattern: string, i: nat, at: nat)
    requires OccursAt(s, pattern, i) && i <= at < i + |pattern|
    ensures s[at] in pattern
  {
    assert s[at] == s[i..i + |pattern|][at - i];
  }

  lemma OccursInPart(s: string, pattern: string, i: nat, from: nat, to: nat)
    requires OccursAt(s, pattern, i) && from <= i && i + |pattern| <= to <= |s|
    ensures OccursAt(s[from..to], pattern, i - from)
  {
    var part := s[from..to][i - from..i - from + |pattern|];
    forall k | 0 <= k < |pattern| ensures part[k] == pattern[k] {
      assert part[k] == s[i + k] == s[i..i + |pattern|][k];
    }
  }

  lemma OccursInHalf(a: string, b: string, pattern: string, i: nat)
    requires '/' !in pattern && pattern != "" && OccursAt(a + "/" + b, pattern, i)
    ensures OccursAt(a, pattern, i) || (i > |a| && OccursAt(b, pattern, i - |a| - 1))
  {
    var s := a + "/" + b;
    assert s[..|a|] == a && s[|a|] == '/' && s[|a| + 1..] == b;
    if i + |pattern| <= |a| {
      OccursInPart(s, pattern, i, 0, |a|);
    } else if i <= |a| {
      CoveredIsInPattern(s, pattern, i, |a|);
    } else {
      OccursInPart(s, pattern, i, |a| + 1, |s|);
    }
  }

  /** A pattern without a slash that occurs in `a/b` occurs in `a` or in `b`. */
  lemma ContainsJoin(a: string, b: string, pattern: string)
    requires '/' !in pattern && pattern != "" && Contains(a + "/" + b, pattern)
    ensures Contains(a, pattern) || Contains(b, pattern)
  {
    var i: nat :| i <= |a + "/" + b| && OccursAt(a + "/" + b, pattern, i);
    OccursInHalf(a, b, pattern, i);
  }

  lemma EncodedDotsJoin(a: string, b: string)
    requires NoEncodedDots(a) && NoEncodedDots(b)
    ensures NoEncodedDots(a + "/" + b)
  {
    LowerJoin(a, b);
    forall p | p in ENCODED_DOTS ensures !Contains(Lower(a + "/" + b), p) {
      if Contains(Lower(a + "/" + b), p) {
        ContainsJoin(Lower(a), Lower(b), p);
      }
    }
  }

  /** The name given to an entry of a nested archive is as safe as its two halves. */
  lemma JoinedNameIsValid(a: string, b: string)
    requires ValidName(a) && a != "" && ValidName(b)
    ensures ValidName(a + "/" + b)
  {
    ComponentsJoin(a, b);
    EncodedDotsJoin(a, b);
    assert (a + "/" + b)[0] == a[0];
  }
}
