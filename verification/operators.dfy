/** `operatorSet` of 00-oop/main.go: a set of operator names. `has` lower-cases
    and trims its argument before looking it up; `add` and `remove` use the
    argument as given. Only ASCII letters and ASCII white space are treated
    specially, as `strings.ToLower` and `strings.TrimSpace` do for ASCII input. */
module Operators {

  type OperatorSet = set<string>

  /** The package-level `operators` value. */
  const InitialOperators: OperatorSet := {"eq", "in", "con", "gt", "lt"}

  predicate IsSpace(c: char)
  {
    c == ' ' || c == '\t' || c == '\n' || c == '\r' || c == '\U{B}' || c == '\U{C}'
  }

  predicate IsUpper(c: char)
  {
    'A' <= c <= 'Z'
  }

  function LowerChar(c: char): (d: char)
    ensures !IsUpper(d)
    ensures IsUpper(c) ==> d as int == c as int + 32
    ensures !IsUpper(c) ==> d == c
  {
    if IsUpper(c) then (c as int + 32) as char else c
  }

  /** `strings.ToLower` on ASCII. */
  function Lower(s: string): (r: string)
    ensures |r| == |s|
    ensures forall k :: 0 <= k < |s| ==> r[k] == LowerChar(s[k])
    decreases |s|
  {
    if |s| == 0 then [] else [LowerChar(s[0])] + Lower(s[1..])
  }

  /** Number of leading white-space characters. */
  function Leading(s: string): (n: nat)
    ensures n <= |s|
    ensures forall k :: 0 <= k < n ==> IsSpace(s[k])
    ensures n < |s| ==> !IsSpace(s[n])
    decreases |s|
  {
    if |s| > 0 && IsSpace(s[0]) then 1 + Leading(s[1..]) else 0
  }

  /** Number of trailing white-space characters. */
  function Trailing(s: string): (n: nat)
    ensures n <= |s|
    ensures forall k :: |s| - n <= k < |s| ==> IsSpace(s[k])
    ensures n < |s| ==> !IsSpace(s[|s| - 1 - n])
    decreases |s|
  {
    if |s| > 0 && IsSpace(s[|s| - 1]) then 1 + Trailing(s[..|s| - 1]) else 0
  }

  /** `strings.TrimSpace`: the result is a slice of `s` with only white space
      cut off on either side, and no white space left at either end. */
  function Trim(s: string): (r: string)
    ensures Leading(s) + |r| <= |s|
    ensures r == s[Leading(s)..Leading(s) + |r|]
    ensures forall k :: Leading(s) + |r| <= k < |s| ==> IsSpace(s[k])
    ensures |r| == 0 || (!IsSpace(r[0]) && !IsSpace(r[|r| - 1]))
  {
    var i := Leading(s);
    var t := s[i..];
    var r := t[..|t| - Trailing(t)];
    assert r == s[i..i + |r|];
    r
  }

  /** What `has` looks up: `TrimSpace(ToLower(op))`. */
  function Normalize(op: string): string
  {
    Trim(Lower(op))
  }

  /** `add(op)`: `op` itself becomes a member; nothing else changes. */
  function AddOp(s: OperatorSet, op: string): (r: OperatorSet)
    ensures op in r
    ensures forall x :: x != op ==> (x in r <==> x in s)
  {
    s + {op}
  }

  /** `remove(op)`: `op` itself stops being a member; nothing else changes. */
  function RemoveOp(s: OperatorSet, op: string): (r: OperatorSet)
    ensures op !in r
    ensures forall x :: x != op ==> (x in r <==> x in s)
  {
    s - {op}
  }

  /** `has(op)`: looks up the lower-cased, trimmed key. For a key already
      in that form it is plain membership; any key it finds is a member. */
  function Has(s: OperatorSet, op: string): (r: bool)
    ensures Normalize(op) == op ==> (r <==> op in s)
    ensures r ==> s != {}
  {
    Normalize(op) in s
  }

  lemma AddIdempotent(s: OperatorSet, op: string)
    ensures AddOp(AddOp(s, op), op) == AddOp(s, op)
  {
  }

  lemma RemoveAfterAdd(s: OperatorSet, op: string)
    ensures RemoveOp(AddOp(s, op), op) == RemoveOp(s, op)
  {
  }

  lemma HasInitialEq()
    ensures Has(InitialOperators, "EQ")
    ensures Has(InitialOperators, "  Gt\t")
    ensures !Has(InitialOperators, "ne")
  {
    HasUpperEq();
    HasSpacedGt();
    HasNoNe();
  }

  lemma HasUpperEq()
    ensures Has(InitialOperators, "EQ")
  {
    NormalizeWord("EQ", "eq");
  }

  lemma HasSpacedGt()
    ensures Has(InitialOperators, "  Gt\t")
  {
    var ws1, ws2 := "  ", "\t";
    assert AllSpace(ws1) && AllSpace(ws2);
    assert "  Gt\t" == ws1 + "Gt" + ws2;
    HasIgnoresSurroundingSpace(InitialOperators, ws1, "Gt", ws2);
    NormalizeWord("Gt", "gt");
  }

  lemma HasNoNe()
    ensures !Has(InitialOperators, "ne")
  {
    NormalizeWord("ne", "ne");
  }

  /** A two-letter word normalises to its lower-case form. */
  lemma NormalizeWord(op: string, lowered: string)
    requires |op| == 2 && |lowered| == 2
    requires lowered[0] == LowerChar(op[0]) && lowered[1] == LowerChar(op[1])
    requires !IsSpace(lowered[0]) && !IsSpace(lowered[1])
    ensures Normalize(op) == lowered
  {
    assert Lower(op) == lowered;
    LeadingUnique(lowered, 0);
    TrailingUnique(lowered, 0);
    assert lowered[0..] == lowered;
  }

  /** The three conditions in `Leading`'s contract determine it. */
  lemma {:induction false} LeadingUnique(s: string, n: nat)
    requires n <= |s|
    requires forall k :: 0 <= k < n ==> IsSpace(s[k])
    requires n < |s| ==> !IsSpace(s[n])
    ensures Leading(s) == n
    decreases |s|
  {
    if n > 0 {
      LeadingUnique(s[1..], n - 1);
    }
  }

  /** The three conditions in `Trailing`'s contract determine it. */
  lemma {:induction false} TrailingUnique(s: string, n: nat)
    requires n <= |s|
    requires forall k :: |s| - n <= k < |s| ==> IsSpace(s[k])
    requires n < |s| ==> !IsSpace(s[|s| - 1 - n])
    ensures Trailing(s) == n
    decreases |s|
  {
    if n > 0 {
      TrailingUnique(s[..|s| - 1], n - 1);
    }
  }

  predicate AllSpace(s: string)
  {
    forall k :: 0 <= k < |s| ==> IsSpace(s[k])
  }

  /** White space around a string does not change what `TrimSpace` returns. */
  lemma TrimIgnoresSurroundingSpace(ws1: string, y: string, ws2: string)
    requires AllSpace(ws1) && AllSpace(ws2)
    ensures Trim(ws1 + y + ws2) == Trim(y)
  {
    TrimDropsLeadingSpace(ws1, y + ws2);
    TrimDropsTrailingSpace(y, ws2);
    ConcatAssoc(ws1, y, ws2);
  }

  lemma {:induction false} TrimDropsLeadingSpace(ws: string, s: string)
    requires AllSpace(ws)
    ensures Trim(ws + s) == Trim(s)
    decreases |ws|
  {
    ConcatSplitFront(ws, s);
    if |ws| > 0 {
      TrimDropsLeadingSpace(ws[1..], s);
      TrimConsSpace(ws[0], ws[1..] + s);
    }
  }

  lemma {:induction false} TrimDropsTrailingSpace(s: string, ws: string)
    requires AllSpace(ws)
    ensures Trim(s + ws) == Trim(s)
    decreases |ws|
  {
    ConcatSplitBack(s, ws);
    if |ws| > 0 {
      var w := ws[..|ws| - 1];
      TrimDropsTrailingSpace(s, w);
      TrimSnocSpace(s + w, ws[|ws| - 1]);
    }
  }

  lemma ConcatSplitFront(ws: string, s: string)
    ensures |ws| == 0 ==> ws + s == s
    ensures |ws| > 0 ==> ws + s == [ws[0]] + (ws[1..] + s)
  {
    if |ws| > 0 {
      assert ws + s == [ws[0]] + (ws[1..] + s);
    }
  }

  lemma ConcatSplitBack(s: string, ws: string)
    ensures |ws| == 0 ==> s + ws == s
    ensures |ws| > 0 ==> s + ws == (s + ws[..|ws| - 1]) + [ws[|ws| - 1]]
  {
    if |ws| > 0 {
      assert s + ws == (s + ws[..|ws| - 1]) + [ws[|ws| - 1]];
    }
  }

  /** One white-space character in front does not change the trimmed form. */
  lemma TrimConsSpace(c: char, s: string)
    requires IsSpace(c)
    ensures Trim([c] + s) == Trim(s)
  {
    var t := [c] + s;
    var l := Leading(s);
    LeadingOfConsSpace(c, s);
    SliceOfCons(c, s, l);
    TrimAt(t, 1 + l, s[l..]);
    TrimAt(s, l, s[l..]);
  }

  lemma LeadingOfConsSpace(c: char, s: string)
    requires IsSpace(c)
    ensures Leading([c] + s) == 1 + Leading(s)
  {
    assert ([c] + s)[1..] == s;
  }

  lemma SliceOfCons(c: char, s: string, l: nat)
    requires l <= |s|
    ensures ([c] + s)[1 + l..] == s[l..]
  {
  }

  /** One white-space character behind does not change the trimmed form. */
  lemma TrimSnocSpace(s: string, c: char)
    requires IsSpace(c)
    ensures Trim(s + [c]) == Trim(s)
  {
    if Leading(s) == |s| {
      TrimSnocBlank(s, c);
    } else {
      TrimSnocWord(s, c);
    }
  }

  /** A blank string stays blank, and both trim to the empty string. */
  lemma TrimSnocBlank(s: string, c: char)
    requires IsSpace(c) && Leading(s) == |s|
    ensures Trim(s + [c]) == Trim(s)
  {
    var t := s + [c];
    forall k | 0 <= k < |t| ensures IsSpace(t[k]) {
      if k < |s| { assert t[k] == s[k]; }
    }
    LeadingUnique(t, |t|);
  }

  lemma TrimSnocWord(s: string, c: char)
    requires IsSpace(c) && Leading(s) < |s|
    ensures Trim(s + [c]) == Trim(s)
  {
    var t := s + [c];
    var l := Leading(s);
    var u := s[l..];
    LeadingOfSnoc(s, c);
    SliceOfSnoc(s, c, l);
    TrailingOfSpaced(u, [c]);
    TrimSame(t, s, l, u, c);
  }

  /** Two strings with the same leading white space, whose rests differ by
      one trailing white-space character, trim alike. */
  lemma TrimSame(t: string, s: string, l: nat, u: string, c: char)
    requires Leading(t) == l && t[l..] == u + [c] && Trailing(u + [c]) == 1 + Trailing(u)
    requires Leading(s) == l && s[l..] == u
    ensures Trim(t) == Trim(s)
  {
    var n := |u| - Trailing(u);
    TrimAt(t, l, u + [c]);
    assert |u + [c]| - Trailing(u + [c]) == n;
    PrefixOfConcat(u, [c], n);
    TrimAt(s, l, u);
  }

  lemma SliceOfSnoc(s: string, c: char, l: nat)
    requires l <= |s|
    ensures (s + [c])[l..] == s[l..] + [c]
  {
  }

  lemma LeadingOfSnoc(s: string, c: char)
    requires Leading(s) < |s|
    ensures Leading(s + [c]) == Leading(s)
  {
    var t := s + [c];
    assert t[Leading(s)] == s[Leading(s)];
    LeadingUnique(t, Leading(s));
  }

  lemma ConcatAssoc(a: string, b: string, c: string)
    ensures a + (b + c) == a + b + c
  {
  }

  /** `Trim(s)` from where its leading white space ends. */
  lemma TrimAt(s: string, i: nat, rest: string)
    requires Leading(s) == i && s[i..] == rest
    ensures Trim(s) == rest[..|rest| - Trailing(rest)]
  {
  }

  lemma PrefixOfConcat(a: string, b: string, n: nat)
    requires n <= |a|
    ensures (a + b)[..n] == a[..n]
  {
  }

  lemma TrailingOfSpaced(u: string, ws2: string)
    requires AllSpace(ws2)
    requires |u| > 0 && !IsSpace(u[0])
    ensures Trailing(u + ws2) == |ws2| + Trailing(u)
  {
    var t := u + ws2;
    var tu := Trailing(u);
    forall k | |t| - (|ws2| + tu) <= k < |t| ensures IsSpace(t[k]) {
      if k < |u| { assert t[k] == u[k]; } else { assert t[k] == ws2[k - |u|]; }
    }
    if tu < |u| {
      assert t[|t| - 1 - (|ws2| + tu)] == u[|u| - 1 - tu];
    }
    TrailingUnique(t, |ws2| + tu);
  }

  /** Lower-casing distributes over concatenation and leaves white space alone. */
  lemma LowerConcat(a: string, b: string)
    ensures Lower(a + b) == Lower(a) + Lower(b)
  {
  }

  lemma LowerOfSpace(ws: string)
    requires AllSpace(ws)
    ensures Lower(ws) == ws
  {
  }

  /** `has` is insensitive to white space around its argument ... */
  lemma HasIgnoresSurroundingSpace(s: OperatorSet, ws1: string, op: string, ws2: string)
    requires AllSpace(ws1) && AllSpace(ws2)
    ensures Has(s, ws1 + op + ws2) == Has(s, op)
  {
    LowerConcat(ws1 + op, ws2);
    LowerConcat(ws1, op);
    LowerOfSpace(ws1);
    LowerOfSpace(ws2);
    TrimIgnoresSurroundingSpace(ws1, Lower(op), ws2);
  }

  /** ... and to the case of its letters. */
  lemma HasIgnoresCase(s: OperatorSet, a: string, b: string)
    requires Lower(a) == Lower(b)
    ensures Has(s, a) == Has(s, b)
  {
  }

  /** Normalising twice is normalising once, so `has(op)` and
      `has(Normalize(op))` agree. */
  lemma NormalizeIdempotent(op: string)
    ensures Normalize(Normalize(op)) == Normalize(op)
  {
    var n := Normalize(op);
    var l := Lower(op);
    var i := Leading(l);
    assert forall k :: 0 <= k < |n| ==> !IsUpper(n[k]) by {
      assert n == l[i..i + |n|];
    }
    LowerOfLowered(n);
    TrimOfTrimmed(n);
  }

  /** A string without upper-case letters is its own lower-cased form. */
  lemma LowerOfLowered(s: string)
    requires forall k :: 0 <= k < |s| ==> !IsUpper(s[k])
    ensures Lower(s) == s
  {
  }

  /** A string that neither starts nor ends with white space is its own
      trimmed form. */
  lemma TrimOfTrimmed(s: string)
    requires |s| == 0 || (!IsSpace(s[0]) && !IsSpace(s[|s| - 1]))
    ensures Trim(s) == s
  {
    LeadingUnique(s, 0);
    TrailingUnique(s, 0);
    assert s[0..] == s;
  }

  // ---------------------------------------------------------------- Findings

  /** As written, `add` stores the raw key while `has` looks up the normalised
      one: after `add("GT")` on an empty set, `has("GT")` is false. */
  lemma AddThenHasCanFail()
    ensures "GT" in AddOp({}, "GT")
    ensures !Has(AddOp({}, "GT"), "GT")
  {
    NormalizeGT();
  }

  /** As written, `remove("GT")` leaves "gt" in the set, so `has("GT")` stays true. */
  lemma RemoveThenHasCanHold()
    ensures Has(RemoveOp(InitialOperators, "GT"), "GT")
  {
    NormalizeGT();
    assert "gt" != "GT";
    assert "gt" in RemoveOp(InitialOperators, "GT");
  }

  lemma NormalizeGT()
    ensures Normalize("GT") == "gt"
  {
    NormalizeWord("GT", "gt");
  }

  /** `add` normalising its key the way `has` does. */
  function AddNormalized(s: OperatorSet, op: string): (r: OperatorSet)
    ensures Normalize(op) in r
    ensures forall x :: x != Normalize(op) ==> (x in r <==> x in s)
  {
    AddOp(s, Normalize(op))
  }

  /** `remove` normalising its key the way `has` does. */
  function RemoveNormalized(s: OperatorSet, op: string): (r: OperatorSet)
    ensures Normalize(op) !in r
    ensures forall x :: x != Normalize(op) ==> (x in r <==> x in s)
  {
    RemoveOp(s, Normalize(op))
  }

  /** With normalising `add`/`remove`, `has` reports exactly what was last done
      to the key, whatever its case and surrounding white space. */
  lemma NormalizedOpsAgreeWithHas(s: OperatorSet, op: string, other: string)
    requires Normalize(other) == Normalize(op)
    ensures Has(AddNormalized(s, op), other)
    ensures !Has(RemoveNormalized(s, op), other)
  {
  }
}
