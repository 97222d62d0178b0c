/** Tokens: how a score event becomes a vocabulary token
    (`preprocess_midi_files`) and how a generated token is classified back
    into a note or a chord for rendering (`create_midi_from_notes`). */
module Tokens {
  import opened Results

  /** An element of `notesAndRests`: a note with the text of its pitch
      (e.g. "C#4"), a chord with its `normalOrder` pitch classes, or a rest. */
  datatype Event = Note(pitchName: string) | Chord(normalOrder: seq<nat>) | Rest

  /** What the renderer appends to the output stream. Chord pitches are
      MIDI note numbers (`int(piece) + 60`). */
  datatype Rendered = ChordOf(pitches: seq<int>) | NoteOf(name: string)

  /** The fate of one token in `create_midi_from_notes`: filtered out before
      any parsing, appended, or rejected by the `except` branch. */
  datatype TokenOutcome = Skipped | Added(item: Rendered) | Rejected

  /** MIDI note number of middle C, the octave chords are rendered in. */
  const MiddleC: int := 60

  predicate IsDigit(c: char)
  {
    '0' <= c <= '9'
  }

  /** `s.isdigit()` (ASCII digits): non-empty and digits only. */
  predicate IsDigits(s: string)
  {
    |s| > 0 && forall i :: 0 <= i < |s| ==> IsDigit(s[i])
  }

  function DigitChar(d: nat): (c: char)
    requires d < 10
    ensures IsDigit(c)
  {
    ('0' as int + d) as char
  }

  /** `str(n)` for a non-negative integer. */
  function DecimalString(n: nat): (r: string)
    ensures IsDigits(r)
    ensures |r| == 1 <==> n < 10
    ensures r[0] == '0' ==> n == 0
    decreases n
  {
    if n < 10 then [DigitChar(n)] else DecimalString(n / 10) + [DigitChar(n % 10)]
  }

  /** The number a string of decimal digits denotes. */
  function DigitsValue(s: string): nat
    requires forall i :: 0 <= i < |s| ==> IsDigit(s[i])
  {
    if s == [] then 0
    else
      var d := s[|s| - 1] as int - '0' as int;
      assert IsDigit(s[|s| - 1]);
      10 * DigitsValue(s[..|s| - 1]) + d
  }

  /** Reading back `str(n)` gives `n`. */
  lemma {:induction false} DecimalRoundTrip(n: nat)
    ensures DigitsValue(DecimalString(n)) == n
    decreases n
  {
    if n >= 10 {
      DecimalRoundTrip(n / 10);
      var s := DecimalString(n);
      assert s[..|s| - 1] == DecimalString(n / 10);
    }
  }

  /** `int(piece)`: an optional sign followed by decimal digits; anything
      else raises `ValueError`, reported as `None`. */
  function ParseInt(piece: string): Option<int>
  {
    if |piece| > 0 && piece[0] == '-' && IsDigits(piece[1..]) then Some(0 - DigitsValue(piece[1..]) as int)
    else if |piece| > 0 && piece[0] == '+' && IsDigits(piece[1..]) then Some(DigitsValue(piece[1..]))
    else if IsDigits(piece) then Some(DigitsValue(piece))
    else None
  }

  lemma ParseDecimal(n: nat)
    ensures ParseInt(DecimalString(n)) == Some(n)
  {
    DecimalRoundTrip(n);
  }

  /** `s.split('.')`: always at least one piece, no piece holds a dot, and
      there is more than one piece exactly when `s` holds a dot. */
  function Split(s: string): (r: seq<string>)
    ensures |r| >= 1
    ensures forall i :: 0 <= i < |r| ==> '.' !in r[i]
    ensures '.' in s <==> |r| >= 2
    ensures '.' !in s ==> r == [s]
    decreases |s|
  {
    if s == [] then [""]
    else
      var rest := Split(s[1..]);
      if s[0] == '.' then [""] + rest
      else
        assert '.' !in [s[0]] + rest[0];
        assert s == [s[0]] + s[1..];
        assert '.' in s <==> '.' in s[1..];
        [[s[0]] + rest[0]] + rest[1..]
  }

  /** `'.'.join(pieces)`. */
  function JoinDots(pieces: seq<string>): string
    decreases |pieces|
  {
    if |pieces| == 0 then ""
    else if |pieces| == 1 then pieces[0]
    else pieces[0] + "." + JoinDots(pieces[1..])
  }

  /** Joining the pieces of a split gives the string back. */
  lemma {:induction false} JoinSplit(s: string)
    ensures JoinDots(Split(s)) == s
    decreases |s|
  {
    if s != [] {
      JoinSplit(s[1..]);
      var rest := Split(s[1..]);
      if s[0] == '.' {
        assert s == "." + s[1..];
      } else if |rest| == 1 {
        assert s == [s[0]] + s[1..];
      } else {
        assert JoinDots(rest) == rest[0] + "." + JoinDots(rest[1..]);
        assert s == [s[0]] + s[1..];
      }
    }
  }

  lemma {:induction false} SplitAfterPiece(p: string, rest: string)
    requires '.' !in p
    ensures Split(p + "." + rest) == [p] + Split(rest)
    decreases |p|
  {
    var s := p + "." + rest;
    if p == [] {
      assert s[0] == '.' && s[1..] == rest;
    } else {
      assert s[0] == p[0] && s[1..] == p[1..] + "." + rest;
      assert '.' !in p[1..];
      SplitAfterPiece(p[1..], rest);
      assert [p[0]] + p[1..] == p;
    }
  }

  /** Splitting a dot-join of dot-free pieces gives the pieces back. */
  lemma {:induction false} SplitJoin(pieces: seq<string>)
    requires |pieces| >= 1
    requires forall i :: 0 <= i < |pieces| ==> '.' !in pieces[i]
    ensures Split(JoinDots(pieces)) == pieces
    decreases |pieces|
  {
    if |pieces| > 1 {
      SplitAfterPiece(pieces[0], JoinDots(pieces[1..]));
      SplitJoin(pieces[1..]);
      assert pieces == [pieces[0]] + pieces[1..];
    }
  }

  function DecimalStrings(ns: seq<nat>): (r: seq<string>)
    ensures |r| == |ns|
  {
    seq(|ns|, i requires 0 <= i < |ns| => DecimalString(ns[i]))
  }

  /** `'.'.join(str(n) for n in element.normalOrder)`. */
  function ChordToken(normalOrder: seq<nat>): string
  {
    JoinDots(DecimalStrings(normalOrder))
  }

  /** The token `preprocess_midi_files` records for one event; rests give none. */
  function EventToken(e: Event): (r: Option<string>)
    ensures r.None? <==> e.Rest?
  {
    match e
    case Note(name) => Some(name)
    case Chord(ps) => Some(ChordToken(ps))
    case Rest => None
  }

  function TokenList(e: Event): seq<string>
  {
    match EventToken(e)
    case None => []
    case Some(t) => [t]
  }

  /** The tokens of one file's events, in order. */
  function EventTokens(events: seq<Event>): seq<string>
    decreases |events|
  {
    if events == [] then []
    else EventTokens(events[..|events| - 1]) + TokenList(events[|events| - 1])
  }

  /** The tokens of all files, file after file. */
  function FileTokens(files: seq<seq<Event>>): seq<string>
    decreases |files|
  {
    if files == [] then []
    else FileTokens(files[..|files| - 1]) + EventTokens(files[|files| - 1])
  }

  /** Every event but a rest contributes exactly one token. */
  lemma {:induction false} EventTokensCount(events: seq<Event>)
    ensures |EventTokens(events)| == |events| - multiset(events)[Rest]
    decreases |events|
  {
    if events != [] {
      var init := events[..|events| - 1];
      EventTokensCount(init);
      assert events == init + [events[|events| - 1]];
      assert multiset(events) == multiset(init) + multiset{events[|events| - 1]};
    }
  }

  /** The token of a chord with at least one pitch class splits back into
      exactly the decimal strings of its `normalOrder`. */
  lemma ChordTokenSplits(normalOrder: seq<nat>)
    requires |normalOrder| >= 1
    ensures Split(ChordToken(normalOrder)) == DecimalStrings(normalOrder)
  {
    var ds := DecimalStrings(normalOrder);
    forall i | 0 <= i < |ds|
      ensures '.' !in ds[i]
    {
      assert IsDigits(ds[i]);
      assert forall j :: 0 <= j < |ds[i]| ==> ds[i][j] != '.';
    }
    SplitJoin(ds);
  }

  /** `[int(cn) for cn in pieces]`: fails as a whole on the first bad piece. */
  function ParseAll(pieces: seq<string>): (r: Option<seq<int>>)
    ensures r.Some? <==> forall i :: 0 <= i < |pieces| ==> ParseInt(pieces[i]).Some?
    ensures r.Some? ==>
      (|r.value| == |pieces| && forall i :: 0 <= i < |pieces| ==> ParseInt(pieces[i]) == Some(r.value[i]))
    decreases |pieces|
  {
    if pieces == [] then Some([])
    else
      match ParseInt(pieces[0])
      case None => None
      case Some(v) =>
        match ParseAll(pieces[1..])
        case None => None
        case Some(vs) => Some([v] + vs)
  }

  /** Shifts pitch classes into the octave of middle C. */
  function Transpose(vs: seq<int>): (r: seq<int>)
    ensures |r| == |vs|
  {
    seq(|vs|, i requires 0 <= i < |vs| => vs[i] + MiddleC)
  }

  /** The body of the loop of `create_midi_from_notes` for one token.
      `acceptsName` stands for music21 accepting `note.Note(token)`. */
  function RenderToken(token: string, acceptsName: string -> bool): (r: TokenOutcome)
    ensures r.Skipped? <==> token == "" || IsDigits(token)
    ensures r.Added? && r.item.NoteOf? ==>
      r.item.name == token && '.' !in token && !IsDigits(token) && acceptsName(token)
    ensures r.Added? && r.item.ChordOf? ==>
      var pieces := Split(token);
      && |pieces| >= 2
      && |r.item.pitches| == |pieces|
      && forall i :: 0 <= i < |pieces| ==> ParseInt(pieces[i]) == Some(r.item.pitches[i] - MiddleC)
    ensures token != "" && !IsDigits(token) && '.' !in token && acceptsName(token) ==> r == Added(NoteOf(token))
    ensures token != "" && !IsDigits(token) && '.' in token && ParseAll(Split(token)).Some? ==>
      r.Added? && r.item.ChordOf?
    ensures r.Rejected? <==>
      && token != ""
      && !IsDigits(token)
      && (if '.' in token then ParseAll(Split(token)).None? else !acceptsName(token))
  {
    if token == "" || IsDigits(token) then Skipped
    else if '.' in token then
      match ParseAll(Split(token))
      case None => Rejected
      case Some(vs) => Added(ChordOf(Transpose(vs)))
    else if acceptsName(token) then Added(NoteOf(token))
    else Rejected
  }

  /** A chord of at least two pitch classes comes back from rendering as a
      chord of exactly those classes, each raised by 60, in order. */
  lemma ChordTokenRenders(normalOrder: seq<nat>, acceptsName: string -> bool)
    requires |normalOrder| >= 2
    ensures RenderToken(ChordToken(normalOrder), acceptsName)
      == Added(ChordOf(seq(|normalOrder|, i requires 0 <= i < |normalOrder| => normalOrder[i] + MiddleC)))
  {
    var t := ChordToken(normalOrder);
    var ds := DecimalStrings(normalOrder);
    ChordTokenSplits(normalOrder);
    assert '.' in t;
    assert !IsDigits(t) by {
      var j :| 0 <= j < |t| && t[j] == '.';
    }
    forall i | 0 <= i < |ds|
      ensures ParseInt(ds[i]) == Some(normalOrder[i] as int)
    {
      ParseDecimal(normalOrder[i]);
    }
    var vs := ParseAll(ds).value;
    assert forall i :: 0 <= i < |vs| ==> vs[i] == normalOrder[i];
  }

  /** A note event whose pitch name music21 accepts, and which is neither
      empty, all digits nor dotted, comes back from rendering as that note. */
  lemma NoteEventRenders(name: string, acceptsName: string -> bool)
    requires name != "" && !IsDigits(name) && '.' !in name && acceptsName(name)
    ensures EventToken(Note(name)) == Some(name)
    ensures RenderToken(name, acceptsName) == Added(NoteOf(name))
  {
  }

  /** A chord with a single pitch class (or none) yields an all-digit (or
      empty) token, which rendering filters out: it never reaches the output. */
  lemma OneClassChordSkipped(normalOrder: seq<nat>, acceptsName: string -> bool)
    requires |normalOrder| <= 1
    ensures RenderToken(ChordToken(normalOrder), acceptsName) == Skipped
  {
    if |normalOrder| == 1 {
      assert ChordToken(normalOrder) == DecimalString(normalOrder[0]);
    }
  }

  /** The items a token list renders to, in order. */
  function RenderedItems(tokens: seq<string>, acceptsName: string -> bool): seq<Rendered>
    decreases |tokens|
  {
    if tokens == [] then []
    else
      var init := RenderedItems(tokens[..|tokens| - 1], acceptsName);
      match RenderToken(tokens[|tokens| - 1], acceptsName)
      case Added(item) => init + [item]
      case _ => init
  }

  /** The tokens the `except` branch reports, in order. */
  function RejectedTokens(tokens: seq<string>, acceptsName: string -> bool): seq<string>
    decreases |tokens|
  {
    if tokens == [] then []
    else
      var init := RejectedTokens(tokens[..|tokens| - 1], acceptsName);
      if RenderToken(tokens[|tokens| - 1], acceptsName).Rejected? then init + [tokens[|tokens| - 1]]
      else init
  }

  /** No empty or all-digit token is ever rendered: every note in the output
      is one of the input tokens, dot-free and not all digits, and every
      chord has at least two pitches. */
  lemma {:induction false} RenderedItemsWellFormed(tokens: seq<string>, acceptsName: string -> bool)
    ensures forall k :: 0 <= k < |RenderedItems(tokens, acceptsName)| ==>
      var item := RenderedItems(tokens, acceptsName)[k];
      && (item.NoteOf? ==> item.name in tokens && item.name != "" && !IsDigits(item.name) && '.' !in item.name)
      && (item.ChordOf? ==> |item.pitches| >= 2)
    decreases |tokens|
  {
    if tokens != [] {
      var init := tokens[..|tokens| - 1];
      RenderedItemsWellFormed(init, acceptsName);
      assert tokens == init + [tokens[|tokens| - 1]];
      assert forall t :: t in init ==> t in tokens;
    }
  }

  /** The token of the chord with normal order 0, 4, 7. */
  lemma MajorTriadToken()
    ensures ChordToken([0, 4, 7]) == "0.4.7"
  {
    assert DecimalStrings([0, 4, 7]) == ["0", "4", "7"] by {
      assert DecimalString(0) == "0" && DecimalString(4) == "4" && DecimalString(7) == "7";
    }
    assert JoinDots(["0", "4", "7"]) == "0.4.7" by {
      assert JoinDots(["7"]) == "7";
      assert JoinDots(["4", "7"]) == "4" + "." + "7";
    }
  }

  /** The worked example: "0.4.7" renders as the chord 60, 64, 67, and the
      lone digit "5" is dropped. */
  lemma RenderExamples(acceptsName: string -> bool)
    ensures RenderToken("0.4.7", acceptsName) == Added(ChordOf([60, 64, 67]))
    ensures RenderToken("5", acceptsName) == Skipped
  {
    var normalOrder: seq<nat> := [0, 4, 7];
    var pitches := seq(|normalOrder|, i requires 0 <= i < |normalOrder| => normalOrder[i] + MiddleC);
    assert |pitches| == 3 && pitches[0] == 60 && pitches[1] == 64 && pitches[2] == 67;
    assert pitches == [60, 64, 67];
    MajorTriadToken();
    ChordTokenRenders(normalOrder, acceptsName);
    assert IsDigits("5") by {
      assert IsDigit('5');
    }
  }

  /** The worked example for notes: "C4" is a single note when music21
      accepts the name, and is reported by the `except` branch otherwise. */
  lemma NoteExample(acceptsName: string -> bool)
    ensures acceptsName("C4") ==> RenderToken("C4", acceptsName) == Added(NoteOf("C4"))
    ensures !acceptsName("C4") ==> RenderToken("C4", acceptsName) == Rejected
  {
    var token := "C4";
    assert token[0] == 'C' && !IsDigit(token[0]);
    assert token[1] == '4';
    assert '.' !in token;
  }
}
