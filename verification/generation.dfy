/** The greedy loop of `generate_music`, as functions: decode the seed by
    argmax, then repeatedly feed the last `seq_length` one-hot rows to the
    trained model, take the argmax of its scores, and append both the token
    and its one-hot row. */
module Generation {
  import opened Results
  import opened OneHotCoding

  /** The trained model's `predict`, on one window of one-hot rows: a vector
      of scores. The type fixes no length; the model's output layer has one
      entry per vocabulary token. Abstract: any total function. */
  type Predictor = seq<seq<int>> -> seq<int>

  /** Why a generation call raises: `argmax` of an empty vector, an index
      `int_to_note` has no entry for (`KeyError`), an index with no row in
      `np.eye(vocab_size)` (`IndexError`), or a window that does not reshape
      to `(1, seq_length, vocab_size)`. */
  datatype GenError = EmptyVector | UnknownIndex(index: nat) | NoOneHotRow(index: nat) | ShapeMismatch

  /** The instance state `generate_music` reads, together with the model. */
  datatype Setting = Setting(intToNote: map<nat, string>, seqLength: nat, vocabSize: nat, predict: Predictor)

  /** The two lists the loop grows: `generated_sequence` and `one_hot_sequence`. */
  datatype Progress = Progress(tokens: seq<string>, buffer: seq<seq<int>>)

  /** `int_to_note[np.argmax(row)]` succeeds. */
  predicate Decodable(row: seq<int>, intToNote: map<nat, string>)
  {
    |row| > 0 && Argmax(row) in intToNote
  }

  /** `[int_to_note[np.argmax(v)] for v in seed]`: the first row that cannot
      be decoded aborts the whole comprehension. */
  function DecodeSeed(seed: seq<seq<int>>, intToNote: map<nat, string>): (r: Result<seq<string>, GenError>)
    ensures r.Success? <==> forall i :: 0 <= i < |seed| ==> Decodable(seed[i], intToNote)
    ensures r.Success? ==>
      (|r.value| == |seed| && forall i :: 0 <= i < |seed| ==> r.value[i] == intToNote[Argmax(seed[i])])
    decreases |seed|
  {
    if seed == [] then Success([])
    else if |seed[0]| == 0 then Failure(EmptyVector)
    else if Argmax(seed[0]) !in intToNote then Failure(UnknownIndex(Argmax(seed[0])))
    else
      match DecodeSeed(seed[1..], intToNote)
      case Failure(e) => Failure(e)
      case Success(tokens) =>
        assert forall i :: 1 <= i < |seed| ==> seed[1..][i - 1] == seed[i];
        Success([intToNote[Argmax(seed[0])]] + tokens)
  }

  /** Python's `buffer[-n:]`: the last `n` rows, the whole buffer when it is
      shorter, and also the whole buffer when `n == 0` (`-0 == 0`). */
  function LastRows(buffer: seq<seq<int>>, n: nat): (r: seq<seq<int>>)
    ensures |r| == (if 0 < n < |buffer| then n else |buffer|)
    ensures r == buffer[|buffer| - |r|..]
  {
    if 0 < n < |buffer| then buffer[|buffer| - n..] else buffer
  }

  /** The window reshapes to `(1, rows, width)`: `rows` rows of `width` scores. */
  predicate Shaped(window: seq<seq<int>>, rows: nat, width: nat)
  {
    |window| == rows && forall i :: 0 <= i < |window| ==> |window[i]| == width
  }

  /** One iteration of the loop. */
  function Step(p: Progress, g: Setting): Result<Progress, GenError>
  {
    var window := LastRows(p.buffer, g.seqLength);
    if !Shaped(window, g.seqLength, g.vocabSize) then Failure(ShapeMismatch)
    else
      var scores := g.predict(window);
      if |scores| == 0 then Failure(EmptyVector)
      else
        var k := Argmax(scores);
        if k !in g.intToNote then Failure(UnknownIndex(k))
        else if k >= g.vocabSize then Failure(NoOneHotRow(k))
        else Success(Progress(p.tokens + [g.intToNote[k]], p.buffer + [OneHot(k, g.vocabSize)]))
  }

  /** `n` iterations of the loop; the first failing one ends the call. */
  function Run(p: Progress, n: nat, g: Setting): (r: Result<Progress, GenError>)
    ensures r.Success? ==>
      && |r.value.tokens| == |p.tokens| + n
      && |r.value.buffer| == |p.buffer| + n
    decreases n
  {
    if n == 0 then Success(p)
    else
      match Run(p, n - 1, g)
      case Failure(e) => Failure(e)
      case Success(q) => Step(q, g)
  }

  /** `generate_music(seed, num_steps)`. */
  function Generate(seed: seq<seq<int>>, numSteps: nat, g: Setting): Result<seq<string>, GenError>
  {
    match DecodeSeed(seed, g.intToNote)
    case Failure(e) => Failure(e)
    case Success(tokens) =>
      match Run(Progress(tokens, seed), numSteps, g)
      case Failure(e) => Failure(e)
      case Success(p) => Success(p.tokens)
  }

  /** Position `pos` was produced by a step: the model saw exactly the
      `seqLength` rows before it, its argmax is a known index with a one-hot
      row, and the token
      and the row at `pos` are that index decoded and one-hot encoded. */
  ghost predicate PredictedAt(g: Setting, q: Progress, pos: nat)
  {
    && g.seqLength <= pos < |q.buffer|
    && pos < |q.tokens|
    && var scores := g.predict(q.buffer[pos - g.seqLength..pos]);
    && |scores| > 0
    && Argmax(scores) in g.intToNote
    && Argmax(scores) < g.vocabSize
    && q.tokens[pos] == g.intToNote[Argmax(scores)]
    && q.buffer[pos] == OneHot(Argmax(scores), g.vocabSize)
  }

  /** A successful step appends one token and one row, and the model input
      was exactly the last `seqLength` rows of the buffer. */
  lemma StepAppends(p: Progress, g: Setting)
    requires Step(p, g).Success?
    requires |p.tokens| == |p.buffer|
    ensures var q := Step(p, g).value;
      && |q.tokens| == |q.buffer| == |p.buffer| + 1
      && p.tokens <= q.tokens && p.buffer <= q.buffer
      && PredictedAt(g, q, |p.buffer|)
  {
    var q := Step(p, g).value;
    var n := |p.buffer|;
    assert LastRows(p.buffer, g.seqLength) == p.buffer[n - g.seqLength..];
    assert q.buffer[n - g.seqLength..n] == p.buffer[n - g.seqLength..];
  }

  lemma PredictedAtExtends(g: Setting, q: Progress, q': Progress, pos: nat)
    requires PredictedAt(g, q, pos)
    requires q.tokens <= q'.tokens && q.buffer <= q'.buffer
    ensures PredictedAt(g, q', pos)
  {
    assert q'.buffer[pos - g.seqLength..pos] == q.buffer[pos - g.seqLength..pos];
    assert q'.tokens[pos] == q.tokens[pos] && q'.buffer[pos] == q.buffer[pos];
  }

  /** After `n` successful steps both lists have grown by exactly `n`, the
      old contents are untouched, and every new position is a greedy
      prediction from the `seqLength` rows just before it. */
  lemma {:induction false} RunTrace(p: Progress, n: nat, g: Setting)
    requires |p.tokens| == |p.buffer|
    requires Run(p, n, g).Success?
    ensures var q := Run(p, n, g).value;
      && |q.tokens| == |q.buffer| == |p.buffer| + n
      && p.tokens <= q.tokens && p.buffer <= q.buffer
      && forall pos :: |p.buffer| <= pos < |q.buffer| ==> PredictedAt(g, q, pos)
    decreases n
  {
    if n > 0 {
      RunTrace(p, n - 1, g);
      var q := Run(p, n - 1, g).value;
      StepAppends(q, g);
      var q' := Step(q, g).value;
      forall pos | |p.buffer| <= pos < |q'.buffer|
        ensures PredictedAt(g, q', pos)
      {
        if pos < |q.buffer| {
          PredictedAtExtends(g, q, q', pos);
        }
      }
    }
  }

  /** Once a step fails, every longer run fails with the same error. */
  lemma {:induction false} RunFailureSticks(p: Progress, m: nat, n: nat, g: Setting)
    requires m <= n
    requires Run(p, m, g).Failure?
    ensures Run(p, n, g) == Run(p, m, g)
    decreases n
  {
    if n > m {
      RunFailureSticks(p, m, n - 1, g);
    }
  }

  /** The generated tokens are always the argmax-decoding of the rolling buffer. */
  ghost predicate Coherent(p: Progress, intToNote: map<nat, string>)
  {
    && |p.tokens| == |p.buffer|
    && forall i :: 0 <= i < |p.buffer| ==>
         Decodable(p.buffer[i], intToNote) && p.tokens[i] == intToNote[Argmax(p.buffer[i])]
  }

  /** Every step keeps the token list and the buffer in step with each other,
      because the argmax of a fresh one-hot row is the predicted index. */
  lemma {:induction false} RunKeepsCoherent(p: Progress, n: nat, g: Setting)
    requires Coherent(p, g.intToNote)
    requires Run(p, n, g).Success?
    ensures Coherent(Run(p, n, g).value, g.intToNote)
    decreases n
  {
    if n > 0 {
      RunKeepsCoherent(p, n - 1, g);
      var q := Run(p, n - 1, g).value;
      StepAppends(q, g);
      var q' := Step(q, g).value;
      var pos := |q.buffer|;
      assert PredictedAt(g, q', pos);
      var k := Argmax(g.predict(q'.buffer[pos - g.seqLength..pos]));
      ArgmaxOneHot(k, g.vocabSize);
      assert q'.buffer[pos] == OneHot(k, g.vocabSize);
      forall i | 0 <= i < |q'.buffer|
        ensures Decodable(q'.buffer[i], g.intToNote) && q'.tokens[i] == g.intToNote[Argmax(q'.buffer[i])]
      {
        if i < pos {
          assert q'.buffer[i] == q.buffer[i] && q'.tokens[i] == q.tokens[i];
        }
      }
    }
  }

  /** A well-formed call never fails: a vocabulary numbered 0..V-1 (V > 0),
      a buffer of at least `seqLength > 0` rows of width V, and a model that
      always returns V scores. */
  lemma {:induction false} RunSucceeds(p: Progress, n: nat, g: Setting)
    requires g.vocabSize > 0 && 0 < g.seqLength <= |p.buffer|
    requires forall k: nat :: k in g.intToNote <==> k < g.vocabSize
    requires forall i :: 0 <= i < |p.buffer| ==> |p.buffer[i]| == g.vocabSize
    requires forall w :: |g.predict(w)| == g.vocabSize
    ensures Run(p, n, g).Success?
    ensures |Run(p, n, g).value.buffer| == |p.buffer| + n
    ensures forall i :: 0 <= i < |Run(p, n, g).value.buffer| ==> |Run(p, n, g).value.buffer[i]| == g.vocabSize
    decreases n
  {
    if n > 0 {
      RunSucceeds(p, n - 1, g);
      var q := Run(p, n - 1, g).value;
      var window := LastRows(q.buffer, g.seqLength);
      assert window == q.buffer[|q.buffer| - g.seqLength..];
      assert Shaped(window, g.seqLength, g.vocabSize);
      var k := Argmax(g.predict(window));
      assert k in g.intToNote;
      var q' := Step(q, g).value;
      assert q'.buffer == q.buffer + [OneHot(k, g.vocabSize)];
    }
  }

  /** What `generate_music` returns on success: `len(seed) + num_steps` tokens
      beginning with the decoded seed; with no steps, exactly the decoded
      seed. */
  lemma GenerateShape(seed: seq<seq<int>>, numSteps: nat, g: Setting)
    ensures numSteps == 0 ==> Generate(seed, numSteps, g) == DecodeSeed(seed, g.intToNote)
    ensures Generate(seed, numSteps, g).Success? ==>
      && DecodeSeed(seed, g.intToNote).Success?
      && |Generate(seed, numSteps, g).value| == |seed| + numSteps
      && DecodeSeed(seed, g.intToNote).value <= Generate(seed, numSteps, g).value
  {
    var d := DecodeSeed(seed, g.intToNote);
    if d.Success? {
      var p := Progress(d.value, seed);
      if Run(p, numSteps, g).Success? {
        RunTrace(p, numSteps, g);
      }
    }
  }

  /** Under the conditions the pipeline itself creates (a seed taken from the
      training windows and a model with one output per vocabulary entry),
      generation succeeds. */
  lemma GenerateSucceeds(seed: seq<seq<int>>, numSteps: nat, g: Setting)
    requires g.vocabSize > 0 && 0 < g.seqLength <= |seed|
    requires forall k: nat :: k in g.intToNote <==> k < g.vocabSize
    requires forall i :: 0 <= i < |seed| ==> |seed[i]| == g.vocabSize
    requires forall w :: |g.predict(w)| == g.vocabSize
    ensures Generate(seed, numSteps, g).Success?
  {
    forall i | 0 <= i < |seed|
      ensures Decodable(seed[i], g.intToNote)
    {
      assert Argmax(seed[i]) < g.vocabSize;
    }
    var d := DecodeSeed(seed, g.intToNote);
    RunSucceeds(Progress(d.value, seed), numSteps, g);
  }

  /** An index that `int_to_note` knows but that lies beyond the one-hot
      width ends the call, as `np.eye(vocab_size)[k]` raises there. */
  lemma IndexBeyondWidthFails()
    ensures
      var g := Setting(map[0 := "A", 5 := "C4"], 1, 3, w => [0, 0, 0, 0, 0, 9]);
      Generate([[1, 0, 0]], 1, g) == Failure(NoOneHotRow(5))
  {
    var g := Setting(map[0 := "A", 5 := "C4"], 1, 3, w => [0, 0, 0, 0, 0, 9]);
    var seed: seq<seq<int>> := [[1, 0, 0]];
    SingleSeedDecodes(g.intToNote);
    var start := Progress(["A"], seed);
    var scores: seq<int> := [0, 0, 0, 0, 0, 9];
    assert Argmax(scores) == 5 by {
      ArgmaxUnique(scores, 5);
    }
    assert LastRows(seed, 1) == seed;
    assert Step(start, g) == Failure(NoOneHotRow(5));
    assert Run(start, 1, g) == Step(start, g);
  }

  /** Seed rows need not be one-hot and need only be non-empty to decode, but
      a seed row inside the first window must have width `vocab_size`: here
      the last row has width 2, and the reshape to `(1, 1, 3)` fails. */
  lemma NarrowSeedRowFails()
    ensures
      var g := Setting(map[0 := "A", 1 := "B", 2 := "C"], 1, 3, w => [0, 0, 9]);
      Generate([[1, 0, 0], [0, 1]], 1, g) == Failure(ShapeMismatch)
  {
    var g := Setting(map[0 := "A", 1 := "B", 2 := "C"], 1, 3, w => [0, 0, 9]);
    var seed: seq<seq<int>> := [[1, 0, 0], [0, 1]];
    assert Argmax(seed[0]) == 0 by {
      ArgmaxUnique(seed[0], 0);
    }
    assert Argmax(seed[1]) == 1 by {
      ArgmaxUnique(seed[1], 1);
    }
    assert Decodable(seed[0], g.intToNote) && Decodable(seed[1], g.intToNote);
    var decoded := DecodeSeed(seed, g.intToNote);
    assert decoded.Success? && |decoded.value| == 2;
    var start := Progress(decoded.value, seed);
    assert LastRows(seed, 1) == [[0, 1]];
    assert !Shaped(LastRows(seed, 1), 1, 3);
    assert Step(start, g) == Failure(ShapeMismatch);
    assert Run(start, 1, g) == Step(start, g);
  }

  /** The one-row seed of `IndexBeyondWidthFails` decodes to its single token. */
  lemma SingleSeedDecodes(intToNote: map<nat, string>)
    requires 0 in intToNote
    ensures DecodeSeed([[1, 0, 0]], intToNote) == Success([intToNote[0]])
  {
    var seed: seq<seq<int>> := [[1, 0, 0]];
    assert Argmax(seed[0]) == 0 by {
      ArgmaxUnique(seed[0], 0);
    }
    assert Decodable(seed[0], intToNote);
    var decoded := DecodeSeed(seed, intToNote);
    assert decoded.Success? && |decoded.value| == 1 && decoded.value[0] == intToNote[0];
    assert decoded.value == [intToNote[0]];
  }
}
