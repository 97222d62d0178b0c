/** The vocabulary built by `prepare_sequences`: the distinct tokens in
    sorted order, numbered 0..n-1, the inverse numbering, and the encoding of
    the token stream through it. */
module Vocabulary {
  import opened StringOrder

  /** Every earlier element is Python-`<` every later one (so no duplicates). */
  predicate StrictlySorted(s: seq<string>)
  {
    forall i, j :: 0 <= i < j < |s| ==> Less(s[i], s[j])
  }

  /** The distinct tokens of `notes`, as a set. */
  ghost function Distinct(notes: seq<string>): set<string>
  {
    set t | t in notes
  }

  lemma SortedHasNoDuplicates(s: seq<string>)
    requires StrictlySorted(s)
    ensures forall i, j :: 0 <= i < |s| && 0 <= j < |s| && i != j ==> s[i] != s[j]
  {
    forall i, j | 0 <= i < j < |s|
      ensures s[i] != s[j]
    {
      LessIrreflexive(s[i]);
    }
  }

  lemma SortedCons(h: string, rest: seq<string>)
    requires StrictlySorted(rest)
    requires forall t :: t in rest ==> Less(h, t)
    ensures StrictlySorted([h] + rest)
  {
    var s := [h] + rest;
    forall i, j | 0 <= i < j < |s|
      ensures Less(s[i], s[j])
    {
      if i == 0 {
        assert s[j] == rest[j - 1];
      } else {
        assert s[i] == rest[i - 1] && s[j] == rest[j - 1];
      }
    }
  }

  lemma BelowHeadBelowAll(x: string, s: seq<string>)
    requires StrictlySorted(s) && |s| > 0 && Less(x, s[0])
    ensures forall t :: t in s ==> Less(x, t)
  {
    forall t | t in s
      ensures Less(x, t)
    {
      var j :| 0 <= j < |s| && s[j] == t;
      if j > 0 {
        LessTransitive(x, s[0], s[j]);
      }
    }
  }

  /** Adds `x` to a sorted duplicate-free sequence at its place, unless present. */
  function Insert(s: seq<string>, x: string): (r: seq<string>)
    requires StrictlySorted(s)
    ensures StrictlySorted(r)
    ensures forall t :: t in r <==> t in s || t == x
    decreases |s|
  {
    if s == [] then [x]
    else if x == s[0] then s
    else if Less(x, s[0]) then
      BelowHeadBelowAll(x, s);
      SortedCons(x, s);
      [x] + s
    else
      LessTotal(x, s[0]);
      var rest := Insert(s[1..], x);
      assert forall t :: t in rest ==> Less(s[0], t) by {
        forall t | t in rest
          ensures Less(s[0], t)
        {
          if t != x {
            var j :| 0 <= j < |s[1..]| && s[1..][j] == t;
            assert s[j + 1] == t;
          }
        }
      }
      SortedCons(s[0], rest);
      assert forall t :: t in s ==> t == s[0] || t in s[1..] by {
        forall t | t in s
          ensures t == s[0] || t in s[1..]
        {
          var j :| 0 <= j < |s| && s[j] == t;
          if j > 0 {
            assert s[1..][j - 1] == t;
          }
        }
      }
      [s[0]] + rest
  }

  /** `sorted(set(notes))`: the distinct tokens in ascending order. */
  function SortedTokens(notes: seq<string>): (r: seq<string>)
    ensures StrictlySorted(r)
    ensures forall t :: t in r <==> t in notes
    decreases |notes|
  {
    if notes == [] then []
    else
      var init := notes[..|notes| - 1];
      assert forall t :: t in notes <==> t in init || t == notes[|notes| - 1] by {
        assert notes == init + [notes[|notes| - 1]];
      }
      Insert(SortedTokens(init), notes[|notes| - 1])
  }

  /** A strictly sorted enumeration of a set of tokens is unique. */
  lemma {:induction false} SortedEnumerationUnique(a: seq<string>, b: seq<string>)
    requires StrictlySorted(a) && StrictlySorted(b)
    requires forall t :: t in a <==> t in b
    ensures a == b
    decreases |a|
  {
    SortedHasNoDuplicates(a);
    SortedHasNoDuplicates(b);
    SeqCardOfDistinct(a);
    SeqCardOfDistinct(b);
    assert (set t | t in a) == (set t | t in b);
    if a != [] {
      assert a[0] in b;
      assert b != [];
      assert b[0] in a;
      var i :| 0 <= i < |a| && a[i] == b[0];
      var j :| 0 <= j < |b| && b[j] == a[0];
      if i > 0 && j > 0 {
        // a[0] < a[i] == b[0] < b[j] == a[0]
        LessTransitive(a[0], a[i], b[j]);
        LessIrreflexive(a[0]);
      }
      assert a[0] == b[0];
      forall t
        ensures t in a[1..] <==> t in b[1..]
      {
        if t in a[1..] {
          var k :| 0 <= k < |a[1..]| && a[1..][k] == t;
          assert a[k + 1] == t && t != a[0];
          assert t in b;
          var m :| 0 <= m < |b| && b[m] == t;
          assert m != 0;
          assert b[1..][m - 1] == t;
        }
        if t in b[1..] {
          var k :| 0 <= k < |b[1..]| && b[1..][k] == t;
          assert b[k + 1] == t && t != b[0];
          assert t in a;
          var m :| 0 <= m < |a| && a[m] == t;
          assert m != 0;
          assert a[1..][m - 1] == t;
        }
      }
      SortedEnumerationUnique(a[1..], b[1..]);
      assert a == [a[0]] + a[1..] && b == [b[0]] + b[1..];
    }
  }

  /** `{note: i for i, note in enumerate(sorted_tokens)}`. */
  function NoteToInt(sorted: seq<string>): (m: map<string, nat>)
    requires StrictlySorted(sorted)
  {
    SortedHasNoDuplicates(sorted);
    map i | 0 <= i < |sorted| :: sorted[i] := i as nat
  }

  /** `{i: note for note, i in note_to_int.items()}`. */
  function IntToNote(sorted: seq<string>): (m: map<nat, string>)
    requires StrictlySorted(sorted)
  {
    map i: nat | i < |sorted| :: sorted[i]
  }

  /** The vocabulary invariant: `intToNote` is defined on exactly 0..size-1
      and the two maps are inverse bijections. */
  ghost predicate Bijective(noteToInt: map<string, nat>, intToNote: map<nat, string>, size: nat)
  {
    && (forall i: nat :: i in intToNote <==> i < size)
    && (forall t :: t in noteToInt ==> noteToInt[t] in intToNote && intToNote[noteToInt[t]] == t)
    && (forall i :: i in intToNote ==> intToNote[i] in noteToInt && noteToInt[intToNote[i]] == i)
  }

  lemma MapSizeOfDistinct(s: seq<string>)
    requires StrictlySorted(s)
    ensures NoteToInt(s).Keys == set t | t in s
    ensures |NoteToInt(s)| == |s|
  {
    SortedHasNoDuplicates(s);
    var m := NoteToInt(s);
    assert m.Keys == set t | t in s by {
      forall t | t in s ensures t in m {
        var i :| 0 <= i < |s| && s[i] == t;
      }
    }
    SeqCardOfDistinct(s);
  }

  lemma SortedTokensCard(notes: seq<string>)
    ensures |SortedTokens(notes)| == |Distinct(notes)|
  {
    var s := SortedTokens(notes);
    SortedHasNoDuplicates(s);
    SeqCardOfDistinct(s);
    assert (set t | t in s) == Distinct(notes);
  }

  lemma {:induction false} SeqCardOfDistinct(s: seq<string>)
    requires forall i, j :: 0 <= i < |s| && 0 <= j < |s| && i != j ==> s[i] != s[j]
    ensures |set t | t in s| == |s|
  {
    if s != [] {
      var init := s[..|s| - 1];
      SeqCardOfDistinct(init);
      assert (set t | t in s) == (set t | t in init) + {s[|s| - 1]} by {
        assert s == init + [s[|s| - 1]];
      }
      assert s[|s| - 1] !in init;
    }
  }

  lemma NoteToIntAt(s: seq<string>, i: nat)
    requires StrictlySorted(s) && i < |s|
    ensures s[i] in NoteToInt(s) && NoteToInt(s)[s[i]] == i
  {
    SortedHasNoDuplicates(s);
  }

  lemma NoteToIntKey(s: seq<string>, t: string) returns (i: nat)
    requires StrictlySorted(s) && t in NoteToInt(s)
    ensures i < |s| && s[i] == t && NoteToInt(s)[t] == i
  {
    SortedHasNoDuplicates(s);
    i :| 0 <= i < |s| && s[i] == t;
  }

  /** The vocabulary `prepare_sequences` stores: `vocab_size` is the number
      of distinct tokens, every token of the corpus is a key, and the two
      maps are inverse bijections onto 0..vocab_size-1. */
  lemma VocabularyIsBijection(notes: seq<string>)
    ensures var s := SortedTokens(notes);
      && |NoteToInt(s)| == |Distinct(notes)|
      && (forall t :: t in NoteToInt(s) <==> t in notes)
      && Bijective(NoteToInt(s), IntToNote(s), |NoteToInt(s)|)
  {
    var s := SortedTokens(notes);
    MapSizeOfDistinct(s);
    SortedTokensCard(notes);
    var n2i, i2n := NoteToInt(s), IntToNote(s);
    forall t | t in n2i
      ensures n2i[t] in i2n && i2n[n2i[t]] == t
    {
      var i := NoteToIntKey(s, t);
    }
    forall i | i in i2n
      ensures i2n[i] in n2i && n2i[i2n[i]] == i
    {
      NoteToIntAt(s, i);
    }
  }

  /** The rank property: whatever sorted listing of the distinct tokens one
      takes, its i-th entry is numbered i. */
  lemma RankIsSortedPosition(notes: seq<string>, listing: seq<string>, i: nat)
    requires StrictlySorted(listing)
    requires forall t :: t in listing <==> t in notes
    requires i < |listing|
    ensures listing[i] in NoteToInt(SortedTokens(notes))
    ensures NoteToInt(SortedTokens(notes))[listing[i]] == i
  {
    SortedEnumerationUnique(SortedTokens(notes), listing);
    NoteToIntAt(listing, i);
  }

  /** `[note_to_int[note] for note in notes]`. */
  function Encode(notes: seq<string>, noteToInt: map<string, nat>): (r: seq<nat>)
    requires forall t :: t in notes ==> t in noteToInt
    ensures |r| == |notes|
  {
    seq(|notes|, i requires 0 <= i < |notes| => noteToInt[notes[i]])
  }

  /** Encoding through the built vocabulary stays below `vocab_size` and is
      undone by `int_to_note`. */
  lemma EncodeRoundTrip(notes: seq<string>)
    ensures var s := SortedTokens(notes);
      (forall t :: t in notes ==> t in NoteToInt(s)) &&
      var e: seq<nat> := Encode(notes, NoteToInt(s));
      forall i :: 0 <= i < |e| ==> e[i] < |s| && e[i] in IntToNote(s) && IntToNote(s)[e[i]] == notes[i]
  {
    var s := SortedTokens(notes);
    MapSizeOfDistinct(s);
    assert forall t :: t in notes ==> t in NoteToInt(s);
    var e: seq<nat> := Encode(notes, NoteToInt(s));
    forall i | 0 <= i < |e|
      ensures e[i] < |s| && e[i] in IntToNote(s) && IntToNote(s)[e[i]] == notes[i]
    {
      assert notes[i] in notes;
      var j := NoteToIntKey(s, notes[i]);
    }
  }
}
