/** Joining and splitting text by a separator, as Go's strings.Join and strings.Split do. */
module Text {

  predicate StartsWith(s: string, sep: string) {
    |sep| <= |s| && s[..|sep|] == sep
  }

  predicate Contains(s: string, sep: string) {
    exists i :: 0 <= i <= |s| && StartsWith(s[i..], sep)
  }

  /** Position of the first occurrence, or |s| + 1 when there is none. */
  function Index(s: string, sep: string): (i: nat)
    ensures i <= |s| + 1
    ensures i <= |s| ==> i + |sep| <= |s|
  {
    if StartsWith(s, sep) then 0
    else if s == "" then 1
    else Index(s[1..], sep) + 1
  }

  lemma {:induction false} IndexIsFirst(s: string, sep: string)
    ensures Index(s, sep) <= |s| ==> StartsWith(s[Index(s, sep)..], sep)
    ensures forall j :: 0 <= j < Index(s, sep) && j <= |s| ==> !StartsWith(s[j..], sep)
  {
    assert s[0..] == s;
    if !StartsWith(s, sep) && s != "" {
      IndexIsFirst(s[1..], sep);
      forall j | 1 <= j <= |s| ensures s[j..] == s[1..][j - 1..] {}
    }
  }

  function Join(parts: seq<string>, sep: string): (s: string) {
    if parts == [] then ""
    else if |parts| == 1 then parts[0]
    else parts[0] + sep + Join(parts[1..], sep)
  }

  function Characters(s: string): (parts: seq<string>) {
    if s == "" then [] else [[s[0]]] + Characters(s[1..])
  }

  /** strings.Split: cut at the first occurrence and go on after it; an empty separator
      cuts after every character. */
  function Split(s: string, sep: string): (parts: seq<string>)
    decreases |s|, 1
  {
    if sep == "" then Characters(s) else CutAt(s, sep, Index(s, sep))
  }

  function CutAt(s: string, sep: string, i: nat): (parts: seq<string>)
    requires sep != "" && (i <= |s| ==> i + |sep| <= |s|)
    decreases |s|, 0
  {
    if i > |s| then [s] else [s[..i]] + Split(s[i + |sep|..], sep)
  }

  /** The separator cannot start inside `part` when `part` is followed by it. */
  predicate CutsCleanly(part: string, sep: string) {
    Index(part + sep, sep) == |part|
  }

  /** What the parts must satisfy for the printed text to split back into them. */
  predicate SplitsBack(parts: seq<string>, sep: string) {
    if sep == "" then forall i :: 0 <= i < |parts| ==> |parts[i]| == 1
    else
      && parts != []
      && (forall i :: 0 <= i < |parts| - 1 ==> CutsCleanly(parts[i], sep))
      && !Contains(parts[|parts| - 1], sep)
  }

  lemma IndexIs(s: string, sep: string, i: nat)
    requires i <= |s| && StartsWith(s[i..], sep)
    requires forall j :: 0 <= j < i ==> !StartsWith(s[j..], sep)
    ensures Index(s, sep) == i
  {
    IndexIsFirst(s, sep);
  }

  /** Whether a cut inside `part` is possible does not depend on what follows the
      separator. */
  lemma CutIsLocal(part: string, sep: string, rest: string)
    requires sep != ""
    ensures Index(part + sep + rest, sep) <= |part|
    ensures Index(part + sep + rest, sep) == |part| <==> CutsCleanly(part, sep)
  {
    var short, long := part + sep, part + sep + rest;
    forall j | 0 <= j <= |part| ensures StartsWith(short[j..], sep) <==> StartsWith(long[j..], sep) {
      assert long[j..] == short[j..] + rest;
      assert |sep| <= |short[j..]|;
      assert long[j..][..|sep|] == short[j..][..|sep|];
    }
    assert short[|part|..] == sep;
    assert StartsWith(short[|part|..], sep);
    IndexIsFirst(short, sep);
    IndexIsFirst(long, sep);
    IndexIs(long, sep, Index(short, sep));
  }

  lemma {:induction false} SplitNonEmpty(s: string, sep: string)
    requires sep != ""
    ensures Split(s, sep) != []
  {}

  lemma SplitSingle(s: string, sep: string)
    requires sep != ""
    ensures Split(s, sep) == [s] <==> !Contains(s, sep)
  {
    IndexIsFirst(s, sep);
    if Contains(s, sep) {
      var k :| 0 <= k <= |s| && StartsWith(s[k..], sep);
      assert Index(s, sep) <= |s|;
      SplitNonEmpty(s[Index(s, sep) + |sep|..], sep);
      assert |Split(s, sep)| > 1;
    } else {
      assert Index(s, sep) > |s|;
    }
  }

  lemma Slices(head: string, sep: string, rest: string)
    ensures (head + sep + rest)[..|head|] == head
    ensures (head + sep + rest)[|head| + |sep|..] == rest
  {}

  /** The first cut falls right after the first part exactly when that part cuts cleanly. */
  lemma SplitCons(head: string, rest: string, sep: string)
    requires sep != ""
    ensures CutsCleanly(head, sep) ==> Split(head + sep + rest, sep) == [head] + Split(rest, sep)
    ensures Split(head + sep + rest, sep) != []
    ensures !CutsCleanly(head, sep) ==> Split(head + sep + rest, sep)[0] != head
  {
    var s := head + sep + rest;
    CutIsLocal(head, sep, rest);
    assert Split(s, sep) == CutAt(s, sep, Index(s, sep));
    Slices(head, sep, rest);
  }

  /** Splitting undoes joining exactly when the parts are split-proof, for every
      separator and any number of parts. */
  lemma {:induction false} SplitUndoesJoin(parts: seq<string>, sep: string)
    ensures Split(Join(parts, sep), sep) == parts <==> SplitsBack(parts, sep)
    decreases |parts|
  {
    if sep == "" {
      CharactersOfJoin(parts);
    } else if parts == [] {
      SplitNonEmpty("", sep);
    } else if |parts| == 1 {
      SplitSingle(parts[0], sep);
      assert parts == [parts[0]];
    } else {
      var tail := parts[1..];
      assert parts == [parts[0]] + tail;
      SplitCons(parts[0], Join(tail, sep), sep);
      SplitUndoesJoin(tail, sep);
      if CutsCleanly(parts[0], sep) {
        assert ([parts[0]] + Split(Join(tail, sep), sep))[1..] == Split(Join(tail, sep), sep);
        SplitsBackCons(parts, sep);
      }
    }
  }

  lemma SplitsBackCons(parts: seq<string>, sep: string)
    requires sep != "" && |parts| > 1 && CutsCleanly(parts[0], sep)
    ensures SplitsBack(parts, sep) <==> SplitsBack(parts[1..], sep)
  {
    var tail := parts[1..];
    assert forall i :: 0 <= i < |tail| ==> tail[i] == parts[i + 1];
    assert forall i :: 1 <= i < |parts| ==> parts[i] == tail[i - 1];
  }

  lemma {:induction false} CharactersOfJoin(parts: seq<string>)
    ensures Characters(Join(parts, "")) == parts
            <==> forall i :: 0 <= i < |parts| ==> |parts[i]| == 1
    decreases |parts|
  {
    CharactersAreSingle(Join(parts, ""));
    if (forall i :: 0 <= i < |parts| ==> |parts[i]| == 1) && parts != [] {
      var head, tail := parts[0], parts[1..];
      CharactersOfJoin(tail);
      assert parts == [head] + tail;
      var s := Join(parts, "");
      assert s == head + Join(tail, "");
      assert s[1..] == Join(tail, "") && [s[0]] == head;
    }
  }

  lemma {:induction false} CharactersAreSingle(s: string)
    ensures forall i :: 0 <= i < |Characters(s)| ==> |Characters(s)[i]| == 1
  {
    if s != "" {
      CharactersAreSingle(s[1..]);
    }
  }

  /** For a one-character separator the condition is that no part contains it. */
  lemma SplitsBackSingle(parts: seq<string>, c: char)
    requires parts != []
    ensures SplitsBack(parts, [c]) <==> forall i :: 0 <= i < |parts| ==> c !in parts[i]
  {
    var sep := [c];
    forall i | 0 <= i < |parts|
      ensures CutsCleanly(parts[i], sep) <==> c !in parts[i]
      ensures Contains(parts[i], sep) <==> c in parts[i]
    {
      SingleFacts(parts[i], c);
    }
  }

  lemma SingleFacts(part: string, c: char)
    ensures CutsCleanly(part, [c]) <==> c !in part
    ensures Contains(part, [c]) <==> c in part
  {
    var sep, s := [c], part + [c];
    forall j | 0 <= j < |part|
      ensures StartsWith(s[j..], sep) <==> part[j] == c
      ensures StartsWith(part[j..], sep) <==> part[j] == c
    {
      assert s[j..][..1] == [s[j]];
      assert part[j..][..1] == [part[j]];
    }
    assert s[|part|..] == sep;
    if c in part {
      var j :| 0 <= j < |part| && part[j] == c;
      assert StartsWith(part[j..], sep) && StartsWith(s[j..], sep);
      IndexIsFirst(s, sep);
    } else {
      IndexIs(s, sep, |part|);
    }
  }

  lemma {:induction false} JoinOfCharacters(s: string)
    ensures Join(Characters(s), "") == s
  {
    if s != "" {
      JoinOfCharacters(s[1..]);
      assert Characters(s)[1..] == Characters(s[1..]);
      assert s == [s[0]] + s[1..];
      if s[1..] != "" {
        assert |Characters(s)| > 1;
        assert Join(Characters(s), "") == [s[0]] + "" + Join(Characters(s[1..]), "");
      }
    }
  }

  /** Joining undoes splitting, for every text and separator. */
  lemma {:induction false} JoinUndoesSplit(s: string, sep: string)
    ensures Join(Split(s, sep), sep) == s
    decreases |s|
  {
    if sep == "" {
      JoinOfCharacters(s);
    } else {
      var i := Index(s, sep);
      if i <= |s| {
        IndexIsFirst(s, sep);
        var rest := s[i + |sep|..];
        JoinUndoesSplit(rest, sep);
        SplitNonEmpty(rest, sep);
        assert Split(s, sep) == [s[..i]] + Split(rest, sep);
        assert Split(s, sep)[1..] == Split(rest, sep);
        assert s[i..][..|sep|] == sep;
        assert s == s[..i] + sep + rest;
      }
    }
  }

  /** A text splits into the given parts exactly when it is their joining and they are
      split-proof. */
  lemma SplitsIntoIff(s: string, sep: string, parts: seq<string>)
    ensures Split(s, sep) == parts <==> s == Join(parts, sep) && SplitsBack(parts, sep)
  {
    JoinUndoesSplit(s, sep);
    SplitUndoesJoin(parts, sep);
  }

  // ------------------------------------------------ joined fields as a cache key

  function Count(s: string, c: char): nat {
    if s == "" then 0 else (if s[0] == c then 1 else 0) + Count(s[1..], c)
  }

  lemma {:induction false} CountAbsent(s: string, c: char)
    requires c !in s
    ensures Count(s, c) == 0
  {
    if s != "" {
      CountAbsent(s[1..], c);
    }
  }

  lemma {:induction false} CountAppend(s: string, t: string, c: char)
    ensures Count(s + t, c) == Count(s, c) + Count(t, c)
  {
    if s == "" {
      assert s + t == t;
    } else {
      assert (s + t)[1..] == s[1..] + t;
      CountAppend(s[1..], t, c);
    }
  }

  /** Two texts with equally many separators before a common separator end there. */
  lemma {:induction false} SameCountSamePrefix(p: string, q: string, x: string, y: string, c: char)
    requires p + [c] + x == q + [c] + y && Count(p, c) == Count(q, c)
    ensures p == q && x == y
  {
    var s := p + [c] + x;
    if |p| < |q| {
      PrefixCount(p, q, x, y, c);
    } else if |q| < |p| {
      PrefixCount(q, p, y, x, c);
    } else {
      assert p == s[..|p|] && q == s[..|q|];
      assert x == s[|p| + 1..] && y == s[|q| + 1..];
    }
  }

  lemma PrefixCount(p: string, q: string, x: string, y: string, c: char)
    requires p + [c] + x == q + [c] + y && |p| < |q|
    ensures Count(p, c) < Count(q, c)
  {
    var rest := q[|p| + 1..];
    LongerPrefix(p, q, x, y, c);
    CountAppend(p + [c], rest, c);
    CountAppend(p, [c], c);
    assert Count([c], c) == 1 by { assert [c][1..] == ""; }
  }

  lemma LongerPrefix(p: string, q: string, x: string, y: string, c: char)
    requires p + [c] + x == q + [c] + y && |p| < |q|
    ensures q == p + [c] + q[|p| + 1..]
  {
    var s := p + [c] + x;
    assert q == s[..|q|] && p + [c] == s[..|p| + 1];
    assert q[..|p| + 1] == s[..|p| + 1];
  }

  /** Joining is injective on lists of equal length exactly up to how often each field
      contains the separator. */
  lemma {:induction false} JoinInjectiveIff(xs: seq<string>, ys: seq<string>, c: char)
    requires |xs| == |ys| && Join(xs, [c]) == Join(ys, [c])
    ensures xs == ys <==> forall i :: 0 <= i < |xs| ==> Count(xs[i], c) == Count(ys[i], c)
    decreases |xs|
  {
    if (forall i :: 0 <= i < |xs| ==> Count(xs[i], c) == Count(ys[i], c)) && xs != [] {
      if |xs| == 1 {
        assert xs == [xs[0]] && ys == [ys[0]];
      } else {
        SameCountSamePrefix(xs[0], ys[0], Join(xs[1..], [c]), Join(ys[1..], [c]), c);
        JoinInjectiveIff(xs[1..], ys[1..], c);
        assert xs == [xs[0]] + xs[1..] && ys == [ys[0]] + ys[1..];
      }
    }
  }

  // ------------------------------------------------- replacing one occurrence

  /** strings.Replace with a limit of one. */
  function ReplaceFirst(s: string, cut: string, put: string): string {
    var i := Index(s, cut);
    if i <= |s| then s[..i] + put + s[i + |cut|..] else s
  }

  /** What follows the first occurrence. */
  function After(s: string, sep: string): string {
    var i := Index(s, sep);
    if i <= |s| then s[i + |sep|..] else ""
  }

  lemma ContainsIff(s: string, sep: string)
    ensures Contains(s, sep) <==> Index(s, sep) <= |s|
    ensures Contains(s, sep) ==> s[Index(s, sep)..][..|sep|] == sep && s[Index(s, sep)..Index(s, sep) + |sep|] == sep
  {
    IndexIsFirst(s, sep);
    var k := Index(s, sep);
    if k <= |s| {
      assert s[k..][..|sep|] == s[k..k + |sep|];
    }
  }

  /** What the predicates and the replacement mean for the text as a whole. */
  lemma OccurrenceIs(a: string, sep: string, b: string, put: string)
    ensures StartsWith(sep + b, sep) && Contains(a + sep + b, sep)
    ensures (forall i :: 0 <= i < |a| ==> !StartsWith((a + sep + b)[i..], sep)) ==>
              ReplaceFirst(a + sep + b, sep, put) == a + put + b && After(a + sep + b, sep) == b
  {
    var s := a + sep + b;
    assert s[|a|..] == sep + b && (sep + b)[..|sep|] == sep;
    if forall i :: 0 <= i < |a| ==> !StartsWith(s[i..], sep) {
      IndexIs(s, sep, |a|);
      assert s[..|a|] == a && s[|a| + |sep|..] == b;
    }
  }

  lemma ContainsMeans(s: string, sep: string, put: string)
    ensures StartsWith(s, sep) ==> s == sep + s[|sep|..]
    ensures Contains(s, sep) ==> exists a, b :: s == a + sep + b
    ensures !Contains(s, sep) ==> ReplaceFirst(s, sep, put) == s && After(s, sep) == ""
  {
    ContainsIff(s, sep);
    if Contains(s, sep) {
      var k := Index(s, sep);
      assert s == s[..k] + sep + s[k + |sep|..];
    }
  }

  lemma JoinMeans(first: string, rest: seq<string>, sep: string)
    ensures Join([], sep) == "" && Join([first], sep) == first
    ensures rest != [] ==> Join([first] + rest, sep) == first + sep + Join(rest, sep)
  {
    assert ([first] + rest)[1..] == rest;
  }

  /** A replacement that shares no character with the text replaced cannot complete another
      occurrence: what is left of it is what followed. */
  lemma ReplacedContainsIff(s: string, sep: string, text: string)
    requires Contains(s, sep) && sep != "" && text != ""
    requires forall i, j :: 0 <= i < |text| && 0 <= j < |sep| ==> text[i] != sep[j]
    ensures Contains(ReplaceFirst(s, sep, text), sep) <==> Contains(After(s, sep), sep)
  {
    ContainsIff(s, sep);
    IndexIsFirst(s, sep);
    var k, out, rest := Index(s, sep), ReplaceFirst(s, sep, text), After(s, sep);
    var after := k + |text|;
    assert out[after..] == rest;
    if i :| 0 <= i <= |rest| && StartsWith(rest[i..], sep) {
      assert out[after + i..] == rest[i..];
    }
    if i :| 0 <= i <= |out| && StartsWith(out[i..], sep) {
      OccurrenceFollows(s, sep, text, i);
      assert rest[i - after..] == out[i..];
    }
  }

  lemma OccurrenceFollows(s: string, sep: string, text: string, i: nat)
    requires Contains(s, sep) && sep != "" && text != ""
    requires forall i, j :: 0 <= i < |text| && 0 <= j < |sep| ==> text[i] != sep[j]
    requires i <= |ReplaceFirst(s, sep, text)| && StartsWith(ReplaceFirst(s, sep, text)[i..], sep)
    ensures Index(s, sep) <= |s| && i >= Index(s, sep) + |text|
  {
    ContainsIff(s, sep);
    var k := Index(s, sep);
    WindowAvoids(s, sep, text, i, if i < k then k - i else 0);
    if i + |sep| <= k {
      IndexIsFirst(s, sep);
      WindowBefore(s, sep, text, i);
    }
  }

  lemma WindowAvoids(s: string, sep: string, text: string, i: nat, j: nat)
    requires Index(s, sep) <= |s|
    requires forall i, j :: 0 <= i < |text| && 0 <= j < |sep| ==> text[i] != sep[j]
    requires i <= |ReplaceFirst(s, sep, text)| && StartsWith(ReplaceFirst(s, sep, text)[i..], sep)
    ensures j < |sep| ==> i + j < Index(s, sep) || i + j >= Index(s, sep) + |text|
  {
    var k, out := Index(s, sep), ReplaceFirst(s, sep, text);
    assert j < |sep| ==> out[i..][..|sep|][j] == out[i + j];
    assert forall m :: k <= m < k + |text| ==> out[m] == text[m - k];
  }

  lemma WindowBefore(s: string, sep: string, text: string, i: nat)
    requires Index(s, sep) <= |s| && i + |sep| <= Index(s, sep)
    requires StartsWith(ReplaceFirst(s, sep, text)[i..], sep)
    ensures StartsWith(s[i..], sep)
  {
    assert s[i..][..|sep|] == ReplaceFirst(s, sep, text)[i..][..|sep|];
  }
}
