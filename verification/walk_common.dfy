/**
 Enumerating a directory, and deciding about a file (`src/walk_common.rs`): where the listings
 and verdicts of a `World` come from.
 */
module WalkCommon {
  import opened Prelude
  import opened Gitignore
  import opened WalkWorld

  // ---------------------------------------------------------------- names in order

  /** The order of names by their bytes. For UTF-8 that is the order by their characters. */
  predicate UpTo(a: Name, b: Name) {
    a == "" || (b != "" && (a[0] < b[0] || (a[0] == b[0] && UpTo(a[1..], b[1..]))))
  }

  /** The names agree up to `k` and both go on, `a` with the smaller character. */
  predicate SmallerAt(a: Name, b: Name, k: nat) {
    k < |a| && k < |b| && a[..k] == b[..k] && a[k] < b[k]
  }

  lemma SmallerBehind(a: Name, b: Name, k: nat)
    requires a != "" && b != "" && a[0] == b[0]
    ensures SmallerAt(a, b, k + 1) <==> SmallerAt(a[1..], b[1..], k)
  {
    if k + 1 < |a| && k + 1 < |b| {
      assert a[..k + 1] == [a[0]] + a[1..][..k] && b[..k + 1] == [b[0]] + b[1..][..k];
      assert a[..k + 1][1..] == a[1..][..k] && b[..k + 1][1..] == b[1..][..k];
    }
  }

  lemma SmallerInFront(a: Name, b: Name, k: nat)
    requires a != "" && b != "" && a[0] != b[0]
    ensures SmallerAt(a, b, k) <==> k == 0 && a[0] < b[0]
  {
    if 0 < k < |a| && k < |b| {
      assert a[..k][0] == a[0] && b[..k][0] == b[0];
    }
  }

  /** One name is up to another exactly when it starts the other, or has the smaller character at
      the first place where they differ. */
  lemma {:induction false} UpToMeans(a: Name, b: Name)
    ensures UpTo(a, b) <==> a <= b || exists k: nat :: SmallerAt(a, b, k)
  {
    if a != "" && b != "" {
      SmallerInFrontOrBehind(a, b);
      if a[0] == b[0] {
        UpToMeans(a[1..], b[1..]);
        assert a == [a[0]] + a[1..] && b == [b[0]] + b[1..];
      }
    }
  }

  lemma SmallerInFrontOrBehind(a: Name, b: Name)
    requires a != "" && b != ""
    ensures (exists k: nat :: SmallerAt(a, b, k)) <==>
      if a[0] == b[0] then exists k: nat :: SmallerAt(a[1..], b[1..], k) else a[0] < b[0]
  {
    if k: nat :| SmallerAt(a, b, k) {
      if a[0] == b[0] {
        SmallerBehind(a, b, k - 1);
      } else {
        SmallerInFront(a, b, k);
      }
    }
    if a[0] == b[0] {
      if k: nat :| SmallerAt(a[1..], b[1..], k) {
        SmallerBehind(a, b, k);
      }
    } else {
      SmallerInFront(a, b, 0);
    }
  }

  lemma {:induction false} OrderIsTotal(a: Name, b: Name)
    ensures UpTo(a, b) || UpTo(b, a)
    ensures UpTo(a, b) && UpTo(b, a) ==> a == b
  {
    if a != "" && b != "" {
      OrderIsTotal(a[1..], b[1..]);
      assert a == [a[0]] + a[1..] && b == [b[0]] + b[1..];
    }
  }

  lemma {:induction false} OrderIsTransitive(a: Name, b: Name, c: Name)
    requires UpTo(a, b) && UpTo(b, c)
    ensures UpTo(a, c)
  {
    if a != "" && a[0] == b[0] && b[0] == c[0] {
      OrderIsTransitive(a[1..], b[1..], c[1..]);
    }
  }

  /** Each name is up to all that follow it. */
  predicate Ordered(s: seq<Name>) {
    forall i, j :: 0 <= i < j < |s| ==> UpTo(s[i], s[j])
  }

  /** Puts a name where it belongs in an ordered list. */
  function Place(n: Name, s: seq<Name>): seq<Name> {
    if s == [] || UpTo(n, s[0]) then [n] + s else [s[0]] + Place(n, s[1..])
  }

  lemma {:induction false} PlaceAdds(n: Name, s: seq<Name>)
    ensures multiset(Place(n, s)) == multiset(s) + multiset{n}
  {
    if s != [] && !UpTo(n, s[0]) {
      PlaceAdds(n, s[1..]);
      assert s == [s[0]] + s[1..];
    }
  }

  lemma FirstStaysLeast(first: Name, n: Name, rest: seq<Name>)
    requires UpTo(first, n) && Ordered([first] + rest) && Ordered(Place(n, rest))
    ensures Ordered([first] + Place(n, rest))
  {
    var placed := Place(n, rest);
    forall j | 0 <= j < |placed| ensures UpTo(first, placed[j]) {
      PlaceAdds(n, rest);
      assert placed[j] in multiset(placed);
      if placed[j] != n {
        assert placed[j] in rest;
        var k :| 0 <= k < |rest| && rest[k] == placed[j];
        var all := [first] + rest;
        assert UpTo(all[0], all[k + 1]);
      }
    }
  }

  lemma {:induction false} PlaceKeepsOrder(n: Name, s: seq<Name>)
    requires Ordered(s)
    ensures Ordered(Place(n, s)) && multiset(Place(n, s)) == multiset(s) + multiset{n}
  {
    PlaceAdds(n, s);
    if s != [] {
      assert s == [s[0]] + s[1..];
      if UpTo(n, s[0]) {
        forall j | 0 < j < |s| ensures UpTo(n, s[j]) {
          OrderIsTransitive(n, s[0], s[j]);
        }
      } else {
        PlaceKeepsOrder(n, s[1..]);
        OrderIsTotal(n, s[0]);
        FirstStaysLeast(s[0], n, s[1..]);
      }
    }
  }

  /** `sort_unstable_by`: equal names are equal, so stability makes no difference. */
  function SortNames(s: seq<Name>): seq<Name> {
    if s == [] then [] else Place(s[|s| - 1], SortNames(s[..|s| - 1]))
  }

  lemma {:induction false} SortsNames(s: seq<Name>)
    ensures Ordered(SortNames(s)) && multiset(SortNames(s)) == multiset(s)
  {
    if s != [] {
      SortsNames(s[..|s| - 1]);
      PlaceKeepsOrder(s[|s| - 1], SortNames(s[..|s| - 1]));
      assert s == s[..|s| - 1] + [s[|s| - 1]];
    }
  }

  lemma FirstIsLeast(s: seq<Name>, n: Name)
    requires Ordered(s) && n in s
    ensures UpTo(s[0], n)
  {
    OrderIsTotal(n, n);
  }

  lemma SameFirst(a: seq<Name>, b: seq<Name>)
    requires Ordered(a) && Ordered(b) && multiset(a) == multiset(b) && a != []
    ensures b != [] && a[0] == b[0]
  {
    assert a[0] in multiset(b);
    assert b[0] in multiset(a);
    FirstIsLeast(a, b[0]);
    FirstIsLeast(b, a[0]);
    OrderIsTotal(a[0], b[0]);
  }

  lemma SameRest(a: seq<Name>, b: seq<Name>)
    requires a != [] && b != [] && a[0] == b[0] && multiset(a) == multiset(b)
    ensures multiset(a[1..]) == multiset(b[1..])
  {
    assert a == [a[0]] + a[1..] && b == [b[0]] + b[1..];
    assert multiset(a[1..]) == multiset(a) - multiset{a[0]};
    assert multiset(b[1..]) == multiset(b) - multiset{b[0]};
  }

  /** There is one ordered list of given names. */
  lemma {:induction false} OrderedIsUnique(a: seq<Name>, b: seq<Name>)
    requires Ordered(a) && Ordered(b) && multiset(a) == multiset(b)
    ensures a == b
  {
    if a == [] {
      assert |multiset(b)| == 0;
    } else {
      SameFirst(a, b);
      SameRest(a, b);
      OrderedIsUnique(a[1..], b[1..]);
      assert a == [a[0]] + a[1..] && b == [b[0]] + b[1..];
    }
  }

  // ---------------------------------------------------------------- read_dir_sorted

  type DirEntry = Result<Name, IoError>

  function Names(entries: seq<DirEntry>): seq<Name> {
    if entries == [] then []
    else
      var last := entries[|entries| - 1];
      Names(entries[..|entries| - 1]) + if last.Ok? then [last.value] else []
  }

  function Errors(entries: seq<DirEntry>): seq<IoError> {
    if entries == [] then []
    else
      var last := entries[|entries| - 1];
      Errors(entries[..|entries| - 1]) + if last.Err? then [last.error] else []
  }

  predicate TooMany(count: nat, max: Option<nat>) {
    max.Some? && count > max.value
  }

  lemma {:induction false} NamesGrow(entries: seq<DirEntry>, n: nat)
    requires n <= |entries|
    ensures |Names(entries[..n])| <= |Names(entries)|
  {
    if n < |entries| {
      NamesGrow(entries[..|entries| - 1], n);
      assert entries[..|entries| - 1][..n] == entries[..n];
    } else {
      assert entries[..n] == entries;
    }
  }

  /** `read_dir_sorted`: fails exactly when the directory cannot be opened or has more readable
      entries than allowed, wherever the excess turns up; otherwise all names, in order, and all
      errors. */
  method ReadDirSorted(dir: Result<seq<DirEntry>, IoError>, max: Option<nat>, tooMany: IoError) returns (r: Listing)
    ensures dir.Err? ==> r == ListFailed(dir.error)
    ensures dir.Ok? && max.Some? && |Names(dir.value)| > max.value ==> r == ListFailed(tooMany)
    ensures dir.Ok? && (max.Some? ==> |Names(dir.value)| <= max.value) ==>
      r.Listed? && Ordered(r.names) && multiset(r.names) == multiset(Names(dir.value))
        && r.entryErrors == Errors(dir.value)
  {
    if dir.Err? {
      return ListFailed(dir.error);
    }
    var entries := dir.value;
    var paths: seq<Name>, entryErrors: seq<IoError> := [], [];
    for i := 0 to |entries|
      invariant paths == Names(entries[..i]) && entryErrors == Errors(entries[..i])
      invariant !TooMany(|paths|, max)
    {
      assert entries[..i + 1][..i] == entries[..i];
      match entries[i] {
        case Ok(name) =>
          paths := paths + [name];
          if TooMany(|paths|, max) {
            NamesGrow(entries, i + 1);
            return ListFailed(tooMany);
          }
        case Err(e) => entryErrors := entryErrors + [e];
      }
    }
    assert entries[..|entries|] == entries;
    SortsNames(paths);
    return Listed(SortNames(paths), entryErrors);
  }

  /** The errors are those of the unreadable entries, in the order they were met. */
  lemma {:induction false} ErrorsInOrder(a: seq<DirEntry>, b: seq<DirEntry>, e: IoError)
    ensures Errors(a + [Err(e)] + b) == Errors(a) + [e] + Errors(b)
  {
    if b == [] {
      assert a + [Err(e)] + b == a + [Err(e)] && (a + [Err(e)])[..|a|] == a;
    } else {
      var all, init := a + [Err(e)] + b, b[..|b| - 1];
      assert all[..|all| - 1] == a + [Err(e)] + init;
      ErrorsInOrder(a, init, e);
    }
  }

  /** The order in which the operating system enumerates a directory does not show in the names. */
  lemma EnumerationOrderIsIrrelevant(a: seq<DirEntry>, b: seq<DirEntry>)
    requires multiset(Names(a)) == multiset(Names(b))
    ensures SortNames(Names(a)) == SortNames(Names(b))
  {
    SortsNames(Names(a));
    SortsNames(Names(b));
    OrderedIsUnique(SortNames(Names(a)), SortNames(Names(b)));
  }

  lemma CountLast<T>(s: seq<T>, last: T, x: T)
    ensures multiset(s + [last])[x] == multiset(s)[x] + if last == x then 1 else 0
  {
  }

  /** Every entry counts once: a readable one among the names. */
  lemma {:induction false} NamesCount(entries: seq<DirEntry>, name: Name)
    ensures multiset(Names(entries))[name] == multiset(entries)[Ok(name)]
  {
    if entries != [] {
      var init, last := entries[..|entries| - 1], entries[|entries| - 1];
      NamesCount(init, name);
      assert entries == init + [last];
      CountLast(init, last, Ok(name));
      if last.Ok? {
        CountLast(Names(init), last.value, name);
      } else {
        assert Names(entries) == Names(init);
      }
    }
  }

  /** An unreadable one among the errors. */
  lemma {:induction false} ErrorsCount(entries: seq<DirEntry>, e: IoError)
    ensures multiset(Errors(entries))[e] == multiset(entries)[Err(e)]
  {
    if entries != [] {
      var init, last := entries[..|entries| - 1], entries[|entries| - 1];
      ErrorsCount(init, e);
      assert entries == init + [last];
      CountLast(init, last, Err(e));
      if last.Err? {
        CountLast(Errors(init), last.error, e);
      } else {
        assert Errors(entries) == Errors(init);
      }
    }
  }

  lemma SameNames(a: seq<DirEntry>, b: seq<DirEntry>)
    requires multiset(a) == multiset(b)
    ensures multiset(Names(a)) == multiset(Names(b))
  {
    forall name: Name ensures multiset(Names(a))[name] == multiset(Names(b))[name] {
      NamesCount(a, name);
      NamesCount(b, name);
    }
  }

  lemma SameErrors(a: seq<DirEntry>, b: seq<DirEntry>)
    requires multiset(a) == multiset(b)
    ensures multiset(Errors(a)) == multiset(Errors(b))
  {
    forall e: IoError ensures multiset(Errors(a))[e] == multiset(Errors(b))[e] {
      ErrorsCount(a, e);
      ErrorsCount(b, e);
    }
  }

  /** Two enumerations of the same entries give the same list of names and the same bag of errors. */
  lemma ShuffledEntries(a: seq<DirEntry>, b: seq<DirEntry>)
    requires multiset(a) == multiset(b)
    ensures SortNames(Names(a)) == SortNames(Names(b)) && multiset(Errors(a)) == multiset(Errors(b))
  {
    SameNames(a, b);
    SameErrors(a, b);
    EnumerationOrderIsIrrelevant(a, b);
  }

  // ---------------------------------------------------------------- scan_file_for_nul

  const PREFIX_SCAN_BYTES: nat := 64 * 1024
  const SAMPLE_SIZE: nat := 8192

  /** What successive reads of a file give, as markers of which bytes are NUL; then the end of
      the file or an error. */
  datatype Reads = Reads(chunks: seq<seq<bool>>, error: Option<IoError>)

  predicate Sampled(chunks: seq<seq<bool>>) {
    forall i :: 0 <= i < |chunks| ==> 0 < |chunks[i]| <= SAMPLE_SIZE
  }

  function Content(chunks: seq<seq<bool>>): seq<bool> {
    if chunks == [] then [] else Content(chunks[..|chunks| - 1]) + chunks[|chunks| - 1]
  }

  /** How many reads are made as long as no NUL turns up: up to the first that completes the prefix. */
  function ReadsNeeded(chunks: seq<seq<bool>>, n: nat): (k: nat)
    requires n <= |chunks|
    ensures n <= k <= |chunks|
    ensures |Content(chunks[..n])| >= PREFIX_SCAN_BYTES ==> k == n
    ensures k < |chunks| ==> |Content(chunks[..k])| >= PREFIX_SCAN_BYTES
    decreases |chunks| - n
  {
    if n == |chunks| || |Content(chunks[..n])| >= PREFIX_SCAN_BYTES then n else ReadsNeeded(chunks, n + 1)
  }

  /** The bytes looked at when there is no NUL among them. */
  function Looked(chunks: seq<seq<bool>>): seq<bool> {
    Content(chunks[..ReadsNeeded(chunks, 0)])
  }

  lemma ContentTake(chunks: seq<seq<bool>>, n: nat)
    requires n < |chunks|
    ensures Content(chunks[..n + 1]) == Content(chunks[..n]) + chunks[n]
  {
    assert chunks[..n + 1][..n] == chunks[..n];
  }

  lemma {:induction false} ContentPrefix(chunks: seq<seq<bool>>, m: nat, n: nat)
    requires m <= n <= |chunks|
    ensures Content(chunks[..m]) <= Content(chunks[..n])
    decreases n
  {
    if m < n {
      ContentPrefix(chunks, m, n - 1);
      ContentTake(chunks, n - 1);
    }
  }

  lemma InLast(s: seq<bool>, t: seq<bool>)
    requires true in t
    ensures true in s + t
  {
  }

  lemma InPrefix(s: seq<bool>, t: seq<bool>)
    requires true in s && s <= t
    ensures true in t
  {
  }

  lemma FoundIsLooked(chunks: seq<seq<bool>>, i: nat)
    requires i < |chunks| && true in chunks[i] && |Content(chunks[..i])| < PREFIX_SCAN_BYTES
    requires ReadsNeeded(chunks, i) == ReadsNeeded(chunks, 0)
    ensures true in Looked(chunks)
  {
    var before, upTo := Content(chunks[..i]), Content(chunks[..i + 1]);
    assert upTo == before + chunks[i] by { ContentTake(chunks, i); }
    assert true in upTo by { InLast(before, chunks[i]); }
    ContentPrefix(chunks, i + 1, ReadsNeeded(chunks, i));
    InPrefix(upTo, Looked(chunks));
  }

  /** `scan_file_for_nul`: reports a NUL exactly when one is among the bytes looked at, and a read
      error only when it comes before the prefix is complete. */
  method ScanFileForNul(f: Reads) returns (r: Result<bool, IoError>)
    requires Sampled(f.chunks)
    ensures r == Ok(true) <==> true in Looked(f.chunks)
    ensures r.Err? <==> true !in Looked(f.chunks) && f.error.Some? && |Content(f.chunks)| < PREFIX_SCAN_BYTES
    ensures r.Err? ==> f.error == Some(r.error)
  {
    var scanned, i := 0, 0;
    assert f.chunks[..0] == [] && f.chunks[..|f.chunks|] == f.chunks;
    while scanned < PREFIX_SCAN_BYTES
      invariant i <= |f.chunks| && scanned == |Content(f.chunks[..i])| && true !in Content(f.chunks[..i])
      invariant ReadsNeeded(f.chunks, i) == ReadsNeeded(f.chunks, 0)
      decreases |f.chunks| - i
    {
      if i == |f.chunks| {
        if f.error.Some? {
          return Err(f.error.value);
        }
        break;
      }
      ContentTake(f.chunks, i);
      if true in f.chunks[i] {
        FoundIsLooked(f.chunks, i);
        return Ok(true);
      }
      scanned := scanned + |f.chunks[i]|;
      i := i + 1;
    }
    ContentPrefix(f.chunks, i, |f.chunks|);
    return Ok(false);
  }

  /** The bytes looked at cover the prefix, or the file, and less than one sample more. */
  lemma {:induction false} LookedFrom(chunks: seq<seq<bool>>, n: nat)
    requires Sampled(chunks) && n <= |chunks| && |Content(chunks[..n])| < PREFIX_SCAN_BYTES + SAMPLE_SIZE
    ensures var all := Content(chunks[..ReadsNeeded(chunks, n)]);
      && all <= Content(chunks) && |all| < PREFIX_SCAN_BYTES + SAMPLE_SIZE
      && (all == Content(chunks) || |all| >= PREFIX_SCAN_BYTES)
    decreases |chunks| - n
  {
    assert chunks[..|chunks|] == chunks;
    if n == |chunks| || |Content(chunks[..n])| >= PREFIX_SCAN_BYTES {
      ContentPrefix(chunks, n, |chunks|);
    } else {
      ContentTake(chunks, n);
      LookedFrom(chunks, n + 1);
    }
  }

  /** A NUL in the first 64 KiB is always found, and one found lies in the first 72 KiB. */
  lemma LooksAtPrefix(chunks: seq<seq<bool>>)
    requires Sampled(chunks)
    ensures Looked(chunks) <= Content(chunks) && |Looked(chunks)| < PREFIX_SCAN_BYTES + SAMPLE_SIZE
    ensures forall i :: 0 <= i < |Content(chunks)| && i < PREFIX_SCAN_BYTES && Content(chunks)[i] ==>
      true in Looked(chunks)
  {
    assert chunks[..0] == [];
    LookedFrom(chunks, 0);
    forall i | 0 <= i < |Content(chunks)| && i < PREFIX_SCAN_BYTES && Content(chunks)[i]
      ensures true in Looked(chunks)
    {
      assert Looked(chunks)[i] == Content(chunks)[i];
    }
  }

  /** How many bytes the first `k` reads give. */
  function Delivered(chunks: seq<seq<bool>>, k: nat): nat
    requires k <= |chunks|
  {
    if k == 0 then 0 else Delivered(chunks, k - 1) + |chunks[k - 1]|
  }

  lemma {:induction false} DeliveredIsContent(chunks: seq<seq<bool>>, k: nat)
    requires k <= |chunks|
    ensures |Content(chunks[..k])| == Delivered(chunks, k)
  {
    if k == 0 {
      assert chunks[..0] == [];
    } else {
      DeliveredIsContent(chunks, k - 1);
      ContentTake(chunks, k - 1);
    }
  }

  lemma {:induction false} EnoughReads(chunks: seq<seq<bool>>, n: nat, k: nat)
    requires n <= k <= |chunks| && |Content(chunks[..k])| >= PREFIX_SCAN_BYTES
    ensures ReadsNeeded(chunks, n) <= k
    decreases k - n
  {
    if n < k {
      EnoughReads(chunks, n + 1, k);
    }
  }

  /** The number of bytes delivered by some read lies between the prefix and `at`. */
  predicate StopsBetween(chunks: seq<seq<bool>>, at: nat) {
    exists k :: 0 <= k <= |chunks| && PREFIX_SCAN_BYTES <= Delivered(chunks, k) <= at
  }

  /** A file whose only NUL lies past the prefix is taken for text exactly when the sizes of the
      reads make some read end between the prefix and the NUL. */
  lemma OnlyNulPastPrefix(chunks: seq<seq<bool>>, at: nat)
    requires Sampled(chunks) && PREFIX_SCAN_BYTES <= at < |Content(chunks)|
    requires forall i :: 0 <= i < |Content(chunks)| ==> (Content(chunks)[i] <==> i == at)
    ensures true !in Looked(chunks) <==> StopsBetween(chunks, at)
  {
    LooksAtPrefix(chunks);
    LookedFrom(chunks, 0) by { assert chunks[..0] == []; }
    var last := ReadsNeeded(chunks, 0);
    DeliveredIsContent(chunks, last);
    if at < |Looked(chunks)| {
      assert Looked(chunks)[at];
      forall k | 0 <= k <= |chunks| && Delivered(chunks, k) >= PREFIX_SCAN_BYTES ensures Delivered(chunks, k) > at {
        DeliveredIsContent(chunks, k);
        EnoughReads(chunks, 0, k);
        ContentPrefix(chunks, last, k);
      }
    }
  }

  /** Every read but the last fills the buffer. */
  predicate FullReads(chunks: seq<seq<bool>>) {
    forall i :: 0 <= i < |chunks| - 1 ==> |chunks[i]| == SAMPLE_SIZE
  }

  lemma {:induction false} FullReadsDeliver(chunks: seq<seq<bool>>, k: nat)
    requires Sampled(chunks) && FullReads(chunks) && k <= |chunks|
    ensures k < |chunks| ==> Delivered(chunks, k) == k * SAMPLE_SIZE
    ensures Delivered(chunks, k) <= k * SAMPLE_SIZE
  {
    if k > 0 {
      FullReadsDeliver(chunks, k - 1);
    }
  }

  /** With full reads nothing beyond the prefix is looked at. */
  lemma FullReadsStopAtPrefix(chunks: seq<seq<bool>>)
    requires Sampled(chunks) && FullReads(chunks)
    ensures |Looked(chunks)| <= PREFIX_SCAN_BYTES
  {
    var last, eight := ReadsNeeded(chunks, 0), PREFIX_SCAN_BYTES / SAMPLE_SIZE;
    if eight < |chunks| {
      FullReadsDeliver(chunks, eight);
      DeliveredIsContent(chunks, eight);
      EnoughReads(chunks, 0, eight);
    }
    FullReadsDeliver(chunks, last);
    DeliveredIsContent(chunks, last);
  }

  function Quiet(n: nat): (r: seq<bool>)
    ensures |r| == n && true !in r
  {
    seq(n, _ => false)
  }

  function ShortThenFullAt(i: nat): (c: seq<bool>)
    ensures |c| == if i == 0 then 1 else SAMPLE_SIZE
    ensures i < 8 ==> true !in c
  {
    if i == 0 then Quiet(1) else if i < 8 then Quiet(SAMPLE_SIZE) else Quiet(SAMPLE_SIZE - 1) + [true]
  }

  /** A read of one byte, seven full ones without NUL, then a full one with a NUL as its last byte. */
  function ShortThenFull(): (r: seq<seq<bool>>)
    ensures |r| == 9 && forall i :: 0 <= i < 9 ==> r[i] == ShortThenFullAt(i)
  {
    seq(9, i requires 0 <= i < 9 => ShortThenFullAt(i))
  }

  lemma {:induction false} ShortThenFullDelivers(k: nat)
    requires 0 < k <= 9
    ensures Delivered(ShortThenFull(), k) == 1 + (k - 1) * SAMPLE_SIZE
  {
    assert |ShortThenFull()[k - 1]| == |ShortThenFullAt(k - 1)|;
    if k > 1 {
      ShortThenFullDelivers(k - 1);
    }
  }

  lemma {:induction false} QuietBeforeNul(k: nat)
    requires k <= 8
    ensures true !in Content(ShortThenFull()[..k])
  {
    if k > 0 {
      QuietBeforeNul(k - 1);
      ContentTake(ShortThenFull(), k - 1);
      assert ShortThenFull()[k - 1] == ShortThenFullAt(k - 1);
    }
  }

  /** A file whose only NUL lies past the prefix, and is found. */
  lemma ShortReadExample()
    ensures var chunks := ShortThenFull();
      && Sampled(chunks) && |Content(chunks)| == PREFIX_SCAN_BYTES + 1
      && (forall i :: 0 <= i < |Content(chunks)| ==> (Content(chunks)[i] <==> i == PREFIX_SCAN_BYTES))
      && true in Looked(chunks)
  {
    var chunks := ShortThenFull();
    var before, last := Content(chunks[..8]), ShortThenFullAt(8);
    assert Content(chunks) == before + last by {
      ContentTake(chunks, 8);
      assert chunks[..9] == chunks;
    }
    assert |before| == PREFIX_SCAN_BYTES + 1 - SAMPLE_SIZE by {
      DeliveredIsContent(chunks, 8);
      ShortThenFullDelivers(8);
    }
    QuietBeforeNul(8);
    forall k | 0 < k <= 9 ensures Delivered(chunks, k) == 1 + (k - 1) * SAMPLE_SIZE {
      ShortThenFullDelivers(k);
    }
    assert !StopsBetween(chunks, PREFIX_SCAN_BYTES);
    OnlyNulPastPrefix(chunks, PREFIX_SCAN_BYTES);
  }

  // ---------------------------------------------------------------- build_walked_file

  /** What is known about a file before it is offered. `probe` is the answer of the binary check. */
  datatype Facts = Facts(isFile: bool, matches: bool, size: nat, extension: Option<string>,
                         probe: Result<bool, IoError>, inode: nat)

  datatype Filters = Filters(extension: Option<string>, sizeLimit: Option<nat>, skipBinary: bool)

  function AsciiLower(c: char): char {
    if 'A' <= c <= 'Z' then (c as int + 32) as char else c
  }

  predicate SameIgnoringCase(a: string, b: string) {
    |a| == |b| && forall i :: 0 <= i < |a| ==> AsciiLower(a[i]) == AsciiLower(b[i])
  }

  predicate ExtensionExcluded(extension: Option<string>, required: string) {
    match extension
    case None => required != ""
    case Some(e) => required == "" || !SameIgnoringCase(e, required)
  }

  /** The conditions that need no look into the file. */
  predicate Wanted(f: Facts, o: Filters) {
    && f.isFile && f.matches
    && (o.sizeLimit.Some? ==> f.size <= o.sizeLimit.value)
    && (o.extension.Some? ==> !ExtensionExcluded(f.extension, o.extension.value))
  }

  /** Two texts are the same up to the case of the letters A to Z. */
  predicate SameButCase(a: string, b: string) {
    |a| == |b| && forall i :: 0 <= i < |a| ==>
      || a[i] == b[i]
      || ('A' <= a[i] <= 'Z' && b[i] as int == a[i] as int + 32)
      || ('A' <= b[i] <= 'Z' && a[i] as int == b[i] as int + 32)
  }

  lemma CaseIsIgnored(a: string, b: string)
    ensures SameIgnoringCase(a, b) <==> SameButCase(a, b)
  {
  }

  /** What passes the filters: a matching regular file no longer than the limit; if an extension is
      asked for, it has that one in any case, or none when the empty one is asked for. */
  lemma WantedMeans(f: Facts, o: Filters)
    ensures Wanted(f, o) <==>
      && f.isFile && f.matches
      && (o.sizeLimit.None? || f.size <= o.sizeLimit.value)
      && (match o.extension
          case None => true
          case Some("") => f.extension.None?
          case Some(e) => f.extension.Some? && SameButCase(f.extension.value, e))
  {
    if o.extension.Some? && f.extension.Some? {
      CaseIsIgnored(f.extension.value, o.extension.value);
    }
  }

  /** `build_walked_file`: a file is kept when it is wanted and, if asked, not binary. The probe
      is consulted for wanted files only, so only they can fail on it. */
  function BuildWalkedFile(f: Facts, o: Filters): (r: FileVerdict)
    ensures r.Keep? <==> Wanted(f, o) && (o.skipBinary ==> f.probe == Ok(false))
    ensures r.ProbeFailed? <==> Wanted(f, o) && o.skipBinary && f.probe.Err?
    ensures r.Keep? ==> r == Keep(f.size, f.inode)
    ensures r.ProbeFailed? ==> f.probe == Err(r.error)
  {
    if !f.isFile || !f.matches then Unwanted
    else if o.sizeLimit.Some? && f.size > o.sizeLimit.value then Unwanted
    else if o.extension.Some? && ExtensionExcluded(f.extension, o.extension.value) then Unwanted
    else if o.skipBinary && f.probe.Err? then ProbeFailed(f.probe.error)
    else if o.skipBinary && f.probe.value then Unwanted
    else Keep(f.size, f.inode)
  }
}
