/**
 * Artist and label credits of a release (src/view.js:135-181): the display
 * name with its trailing disambiguation suffix removed (the regular
 * expression `/\s*\(\d+\)\s*$/` replaced by nothing), the identifier
 * `id || name` and the de-duplication of labels by that identifier.
 */
module Credits {
  import opened JsText

  /** One entry of `artists` or `labels`; `id == 0` stands for a missing or falsy id. */
  datatype Credit = Credit(name: string, id: int)

  /** The value of `label.id || label.name`: a number and a string never compare equal in a JavaScript Set. */
  datatype Identifier = ById(id: int) | ByName(name: string)

  function Ident(c: Credit): Identifier {
    if c.id != 0 then ById(c.id) else ByName(c.name)
  }

  // ---------------------------------------------------------------------
  // Name cleaning

  datatype CharClass = Space | Digit

  predicate InClass(c: char, k: CharClass) {
    match k
    case Space => IsWhitespace(c)
    case Digit => IsDigit(c)
  }

  /** Start of the longest run of class-`k` characters that ends at position `e`. */
  function RunStart(s: string, e: nat, k: CharClass): (r: nat)
    requires e <= |s|
    ensures r <= e
    ensures forall i | r <= i < e :: InClass(s[i], k)
    ensures r == 0 || !InClass(s[r - 1], k)
  {
    if e > 0 && InClass(s[e - 1], k) then RunStart(s, e - 1, k) else e
  }

  /** `name.replace(/\s*\(\d+\)\s*$/, '')`: finds the trailing whitespace, the `)`, the digits
      and the `(` from the right, then cuts before the whitespace that precedes the `(`. */
  function CleanName(name: string): string
  {
    var close := RunStart(name, |name|, Space);
    if close == 0 || name[close - 1] != ')' then name
    else
      var digits := RunStart(name, close - 1, Digit);
      if digits == close - 1 || digits == 0 || name[digits - 1] != '(' then name
      else name[..RunStart(name, digits - 1, Space)]
  }

  /** The regular expression matches `s[p..]` with the `(` at `a` and the `)` at `b`:
      whitespace, `(`, one or more digits, `)`, whitespace, end of input. */
  ghost predicate SuffixAt(s: string, p: nat, a: nat, b: nat) {
    && p <= a && a + 1 < b < |s|
    && (forall i | p <= i < a :: IsWhitespace(s[i]))
    && s[a] == '('
    && (forall i | a < i < b :: IsDigit(s[i]))
    && s[b] == ')'
    && (forall i | b < i < |s| :: IsWhitespace(s[i]))
  }

  ghost predicate MatchesAt(s: string, p: nat) {
    exists a: nat, b: nat :: SuffixAt(s, p, a, b)
  }

  lemma {:induction false} RunStartAtMost(s: string, e: nat, q: nat, k: CharClass)
    requires q <= e <= |s|
    requires forall i | q <= i < e :: InClass(s[i], k)
    ensures RunStart(s, e, k) <= q
    decreases e
  {
    if e > q {
      RunStartAtMost(s, e - 1, q, k);
    }
  }

  /** Any match of the pattern is anchored at the `)` and `(` that `CleanName` finds, and starts
      no earlier than the position `CleanName` cuts at. */
  lemma MatchIsFound(s: string, q: nat, a: nat, b: nat)
    requires SuffixAt(s, q, a, b)
    ensures RunStart(s, |s|, Space) == b + 1
    ensures RunStart(s, b, Digit) == a + 1
    ensures RunStart(s, a, Space) <= q
  {
    RunStartAtMost(s, |s|, b + 1, Space);
    RunStartAtMost(s, b, a + 1, Digit);
    RunStartAtMost(s, a, q, Space);
  }

  /** Where the pattern matches, `CleanName` cuts the name at the leftmost position from which it
      matches up to the end: the cut is itself a match, and no match starts before it. */
  lemma CleanNameCutsAtFirstMatch(s: string, q: nat)
    requires MatchesAt(s, q)
    ensures var p := |CleanName(s)|;
      p <= q && CleanName(s) == s[..p] && MatchesAt(s, p)
  {
    var a: nat, b: nat :| SuffixAt(s, q, a, b);
    MatchIsFound(s, q, a, b);
    var p := RunStart(s, a, Space);
    CleanNameAt(s, b + 1, a + 1);
    RunStartSuffix(s, q, a, b);
  }

  /** With the `)` just before `close` and the `(` just before `digits` found, `CleanName` cuts
      before the whitespace run that ends at the `(`. */
  lemma CleanNameAt(s: string, close: nat, digits: nat)
    requires close == RunStart(s, |s|, Space) && 0 < close && s[close - 1] == ')'
    requires digits == RunStart(s, close - 1, Digit) && 0 < digits < close - 1 && s[digits - 1] == '('
    ensures CleanName(s) == s[..RunStart(s, digits - 1, Space)]
  {
  }

  /** The cut position is itself the start of a match. */
  lemma RunStartSuffix(s: string, q: nat, a: nat, b: nat)
    requires SuffixAt(s, q, a, b)
    ensures SuffixAt(s, RunStart(s, a, Space), a, b)
  {
  }

  /** Where the pattern matches nowhere, the name is displayed unchanged. */
  lemma CleanNameKeepsUnmatched(s: string)
    requires forall p: nat | p <= |s| :: !MatchesAt(s, p)
    ensures CleanName(s) == s
  {
    var close := RunStart(s, |s|, Space);
    if close != 0 && s[close - 1] == ')' {
      var digits := RunStart(s, close - 1, Digit);
      if digits != close - 1 && digits != 0 && s[digits - 1] == '(' {
        var p := RunStart(s, digits - 1, Space);
        assert SuffixAt(s, p, digits - 1, close - 1);
        assert MatchesAt(s, p);
        assert false;
      }
    }
  }

  /** `"Artist (2)"` is shown as `"Artist"`. */
  lemma CleanNameExample()
    ensures CleanName("Artist (2)") == "Artist"
  {
    var s := "Artist (2)";
    assert RunStart(s, 10, Space) == 10;
    assert RunStart(s, 9, Digit) == 8;
    assert RunStart(s, 7, Space) == 6;
  }

  // ---------------------------------------------------------------------
  // De-duplication of labels

  /** Identifiers of the credits in `s` (the `seenLabels` set after visiting all of `s`). */
  function IdentSet(s: seq<Credit>): set<Identifier>
  {
    if s == [] then {} else IdentSet(s[..|s| - 1]) + {Ident(s[|s| - 1])}
  }

  /** Reference definition of `uniqueLabels`: each credit whose identifier has not been seen earlier. */
  function FirstOccurrences(s: seq<Credit>): seq<Credit>
  {
    if s == [] then []
    else
      var prefix := s[..|s| - 1];
      if Ident(s[|s| - 1]) in IdentSet(prefix) then FirstOccurrences(prefix)
      else FirstOccurrences(prefix) + [s[|s| - 1]]
  }

  /** Positions in `s` of the credits `FirstOccurrences` keeps. */
  function FirstIndices(s: seq<Credit>): seq<nat>
  {
    if s == [] then []
    else
      var prefix := s[..|s| - 1];
      if Ident(s[|s| - 1]) in IdentSet(prefix) then FirstIndices(prefix)
      else FirstIndices(prefix) + [|s| - 1]
  }

  /** No credit before position `i` has the same identifier as `s[i]`. */
  ghost predicate IsFirst(s: seq<Credit>, i: nat)
    requires i < |s|
  {
    forall j | 0 <= j < i :: Ident(s[j]) != Ident(s[i])
  }

  /** The de-duplication loop of the source: one pass, a set of identifiers seen so far. */
  method DedupLabels(labels: seq<Credit>) returns (unique: seq<Credit>)
    ensures unique == FirstOccurrences(labels)
  {
    unique := [];
    var seen: set<Identifier> := {};
    var i := 0;
    while i < |labels|
      invariant 0 <= i <= |labels|
      invariant seen == IdentSet(labels[..i])
      invariant unique == FirstOccurrences(labels[..i])
    {
      var entry := labels[i];
      var identifier := Ident(entry);
      assert labels[..i + 1][..i] == labels[..i];
      if identifier !in seen {
        seen := seen + {identifier};
        unique := unique + [entry];
      }
      i := i + 1;
    }
    assert labels[..|labels|] == labels;
  }

  lemma {:induction false} IdentSetMembers(s: seq<Credit>)
    ensures forall i | 0 <= i < |s| :: Ident(s[i]) in IdentSet(s)
    ensures forall x | x in IdentSet(s) :: exists i | 0 <= i < |s| :: Ident(s[i]) == x
  {
    if s != [] {
      var prefix := s[..|s| - 1];
      IdentSetMembers(prefix);
      forall x | x in IdentSet(s)
        ensures exists i | 0 <= i < |s| :: Ident(s[i]) == x
      {
        if x != Ident(s[|s| - 1]) {
          var i :| 0 <= i < |prefix| && Ident(prefix[i]) == x;
          assert Ident(s[i]) == x;
        }
      }
    }
  }

  /** De-duplication keeps every identifier and keeps each only once. */
  lemma {:induction false} FirstOccurrencesDistinct(s: seq<Credit>)
    ensures IdentSet(FirstOccurrences(s)) == IdentSet(s)
    ensures var r := FirstOccurrences(s);
      forall i, j | 0 <= i < j < |r| :: Ident(r[i]) != Ident(r[j])
  {
    if s != [] {
      var prefix, last := s[..|s| - 1], s[|s| - 1];
      var r0 := FirstOccurrences(prefix);
      FirstOccurrencesDistinct(prefix);
      if Ident(last) !in IdentSet(prefix) {
        var r := r0 + [last];
        assert r[..|r| - 1] == r0;
        IdentSetMembers(r0);
        forall i, j | 0 <= i < j < |r|
          ensures Ident(r[i]) != Ident(r[j])
        {
          if j == |r| - 1 {
            assert Ident(r0[i]) in IdentSet(r0);
          } else {
            assert r[i] == r0[i] && r[j] == r0[j];
          }
        }
      }
    }
  }

  /** Being a first occurrence is decided by the positions before it, so appending keeps it. */
  lemma IsFirstPrefix(s: seq<Credit>)
    requires s != []
    ensures forall i | 0 <= i < |s| - 1 :: IsFirst(s, i) == IsFirst(s[..|s| - 1], i)
  {
    var prefix := s[..|s| - 1];
    forall i | 0 <= i < |s| - 1
      ensures IsFirst(s, i) == IsFirst(prefix, i)
    {
      assert forall j | 0 <= j <= i :: s[j] == prefix[j];
    }
  }

  /** The last credit is a first occurrence exactly when the loop has not seen its identifier. */
  lemma IsFirstLast(s: seq<Credit>)
    requires s != []
    ensures IsFirst(s, |s| - 1) <==> Ident(s[|s| - 1]) !in IdentSet(s[..|s| - 1])
  {
    var prefix, last := s[..|s| - 1], s[|s| - 1];
    IdentSetMembers(prefix);
    if Ident(last) in IdentSet(prefix) {
      var j :| 0 <= j < |prefix| && Ident(prefix[j]) == Ident(last);
      assert s[j] == prefix[j];
    } else {
      forall j | 0 <= j < |s| - 1 ensures Ident(s[j]) != Ident(last) {
        assert s[j] == prefix[j];
      }
    }
  }

  /** De-duplication keeps exactly the first occurrence of each identifier, in the original order:
      the kept credits are `s` at strictly increasing positions, each a first occurrence, and
      every first occurrence is kept. */
  lemma {:induction false} FirstOccurrencesOrder(s: seq<Credit>)
    ensures |FirstIndices(s)| == |FirstOccurrences(s)|
    ensures var r, idx := FirstOccurrences(s), FirstIndices(s);
      forall k | 0 <= k < |r| :: idx[k] < |s| && r[k] == s[idx[k]] && IsFirst(s, idx[k])
    ensures var idx := FirstIndices(s);
      forall k, l | 0 <= k < l < |idx| :: idx[k] < idx[l]
    ensures forall i | 0 <= i < |s| && IsFirst(s, i) :: i in FirstIndices(s)
  {
    if s != [] {
      var n := |s|;
      var prefix, last := s[..n - 1], s[n - 1];
      FirstOccurrencesOrder(prefix);
      IsFirstPrefix(s);
      IsFirstLast(s);
      var r0, idx0 := FirstOccurrences(prefix), FirstIndices(prefix);
      if Ident(last) !in IdentSet(prefix) {
        var r, idx := r0 + [last], idx0 + [n - 1];
        assert r == FirstOccurrences(s) && idx == FirstIndices(s);
        forall k | 0 <= k < |r|
          ensures idx[k] < n && r[k] == s[idx[k]] && IsFirst(s, idx[k])
        {
          if k < |r0| {
            assert r[k] == r0[k] && idx[k] == idx0[k];
            assert prefix[idx0[k]] == s[idx0[k]];
          }
        }
      }
    }
  }
}
