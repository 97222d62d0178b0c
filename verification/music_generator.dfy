/** The `MusicGenerator` class: its configuration, the vocabulary fields that
    `prepare_sequences` overwrites, and the loops of the token pipeline. The
    trained model is passed to `GenerateMusic` as a predictor. */
module MusicGeneration {
  import opened Results
  import opened Vocabulary
  import opened OneHotCoding
  import opened Windows
  import opened Tokens
  import opened Generation

  /** The loop of `prepare_sequences`: for every start position, the one-hot
      rows of the next `seqLength` indices and the index that follows them. */
  method SlideWindows(encoded: seq<nat>, seqLength: nat, vocabSize: nat)
    returns (xData: seq<seq<seq<int>>>, yData: seq<nat>)
    requires forall k :: 0 <= k < |encoded| ==> encoded[k] < vocabSize
    ensures xData == Contexts(encoded, seqLength, vocabSize)
    ensures yData == Targets(encoded, seqLength)
  {
    ghost var contexts := Contexts(encoded, seqLength, vocabSize);
    ghost var targets := Targets(encoded, seqLength);
    xData, yData := [], [];
    for i := 0 to WindowCount(|encoded|, seqLength)
      invariant xData == contexts[..i]
      invariant yData == targets[..i]
    {
      var sequenceIn := encoded[i..i + seqLength];
      var sequenceOut := encoded[i + seqLength];
      assert contexts[..i + 1] == contexts[..i] + [OneHotRows(sequenceIn, vocabSize)];
      assert targets[..i + 1] == targets[..i] + [sequenceOut];
      xData := xData + [OneHotRows(sequenceIn, vocabSize)];
      yData := yData + [sequenceOut];
    }
  }

  /** The loop of `generate_music`: `numSteps` greedy steps from the decoded
      seed, ending at the first step that raises. */
  method RunSteps(start: Progress, numSteps: nat, g: Setting) returns (r: Result<Progress, GenError>)
    ensures r == Run(start, numSteps, g)
  {
    var generated := start.tokens;
    var oneHots := start.buffer;
    for step := 0 to numSteps
      invariant Run(start, step, g) == Success(Progress(generated, oneHots))
    {
      ghost var next := Step(Progress(generated, oneHots), g);
      assert Run(start, step + 1, g) == next;
      var inputSequence := LastRows(oneHots, g.seqLength);
      if !Shaped(inputSequence, g.seqLength, g.vocabSize) {
        assert next == Failure(ShapeMismatch);
        RunFailureSticks(start, step + 1, numSteps, g);
        return Failure(ShapeMismatch);
      }
      var prediction := g.predict(inputSequence);
      if |prediction| == 0 {
        assert next == Failure(EmptyVector);
        RunFailureSticks(start, step + 1, numSteps, g);
        return Failure(EmptyVector);
      }
      var predictedIndex := Argmax(prediction);
      if predictedIndex !in g.intToNote {
        assert next == Failure(UnknownIndex(predictedIndex));
        RunFailureSticks(start, step + 1, numSteps, g);
        return Failure(UnknownIndex(predictedIndex));
      }
      if predictedIndex >= g.vocabSize {
        assert next == Failure(NoOneHotRow(predictedIndex));
        RunFailureSticks(start, step + 1, numSteps, g);
        return Failure(NoOneHotRow(predictedIndex));
      }
      generated := generated + [g.intToNote[predictedIndex]];
      oneHots := oneHots + [OneHot(predictedIndex, g.vocabSize)];
      assert next == Success(Progress(generated, oneHots));
    }
    r := Success(Progress(generated, oneHots));
  }

  class MusicGenerator {
    const datasetPath: string
    const outputFile: string
    const seqLength: nat
    var noteToInt: map<string, nat>
    var intToNote: map<nat, string>
    var vocabSize: nat

    /** The vocabulary fields always form a bijection onto 0..vocabSize-1. */
    ghost predicate Valid()
      reads this
    {
      Bijective(noteToInt, intToNote, vocabSize)
    }

    constructor (datasetPath: string, outputFile: string, seqLength: nat)
      ensures Valid()
      ensures this.datasetPath == datasetPath && this.outputFile == outputFile && this.seqLength == seqLength
      ensures noteToInt == map[] && intToNote == map[] && vocabSize == 0
    {
      this.datasetPath := datasetPath;
      this.outputFile := outputFile;
      this.seqLength := seqLength;
      noteToInt := map[];
      intToNote := map[];
      vocabSize := 0;
    }

    /** One token per note or chord of every file, in file order then event
        order; rests are dropped. */
    method PreprocessMidiFiles(midiFiles: seq<seq<Event>>) returns (notes: seq<string>)
      ensures notes == FileTokens(midiFiles)
    {
      notes := [];
      for f := 0 to |midiFiles|
        invariant notes == FileTokens(midiFiles[..f])
      {
        var events := midiFiles[f];
        for e := 0 to |events|
          invariant notes == FileTokens(midiFiles[..f]) + EventTokens(events[..e])
        {
          assert events[..e + 1][..e] == events[..e];
          match events[e]
          case Note(name) =>
            notes := notes + [name];
          case Chord(normalOrder) =>
            notes := notes + [ChordToken(normalOrder)];
          case Rest =>
        }
        assert midiFiles[..f + 1][..f] == midiFiles[..f];
        assert events[..|events|] == events;
      }
      assert midiFiles[..|midiFiles|] == midiFiles;
    }

    /** The first half of `prepare_sequences`: numbers the distinct tokens
        in sorted order and stores both maps and their size. */
    method BuildVocabulary(notes: seq<string>)
      modifies this
      ensures Valid()
      ensures noteToInt == NoteToInt(SortedTokens(notes)) && intToNote == IntToNote(SortedTokens(notes))
      ensures vocabSize == |Distinct(notes)|
      ensures forall t :: t in notes <==> t in noteToInt
    {
      noteToInt := NoteToInt(SortedTokens(notes));
      intToNote := IntToNote(SortedTokens(notes));
      vocabSize := |noteToInt|;
      VocabularyIsBijection(notes);
    }

    /** Builds the vocabulary into the instance fields and returns the
        training windows and their targets. */
    method PrepareSequences(notes: seq<string>) returns (xData: seq<seq<seq<int>>>, yData: seq<nat>)
      modifies this
      ensures Valid()
      ensures noteToInt == NoteToInt(SortedTokens(notes)) && intToNote == IntToNote(SortedTokens(notes))
      ensures vocabSize == |Distinct(notes)|
      ensures forall t :: t in notes <==> t in noteToInt
      ensures |xData| == |yData| == WindowCount(|notes|, seqLength)
      ensures xData == Contexts(Encode(notes, noteToInt), seqLength, vocabSize)
      ensures yData == Targets(Encode(notes, noteToInt), seqLength)
    {
      BuildVocabulary(notes);
      var encodedNotes := Encode(notes, noteToInt);
      assert forall k :: 0 <= k < |encodedNotes| ==> encodedNotes[k] in intToNote;
      xData, yData := SlideWindows(encodedNotes, seqLength, vocabSize);
    }

    /** With the class invariant in place, a seed of at least `seqLength`
        rows of width `vocabSize` and a model that returns `vocabSize`
        scores, generation cannot fail. */
    lemma ValidGenerationSucceeds(seedSequence: seq<seq<int>>, numSteps: nat, predict: Predictor)
      requires Valid() && vocabSize > 0 && 0 < seqLength <= |seedSequence|
      requires forall i :: 0 <= i < |seedSequence| ==> |seedSequence[i]| == vocabSize
      requires forall w :: |predict(w)| == vocabSize
      ensures Generate(seedSequence, numSteps, Setting(intToNote, seqLength, vocabSize, predict)).Success?
    {
      GenerateSucceeds(seedSequence, numSteps, Setting(intToNote, seqLength, vocabSize, predict));
    }

    /** Greedy generation from a seed of one-hot rows; fails as the source
        raises, on an empty vector, an unknown index, an index beyond the
        one-hot width or a window of the wrong shape. */
    method GenerateMusic(seedSequence: seq<seq<int>>, numSteps: nat, predict: Predictor)
      returns (r: Result<seq<string>, GenError>)
      ensures r == Generate(seedSequence, numSteps, Setting(intToNote, seqLength, vocabSize, predict))
      ensures numSteps == 0 ==> r == DecodeSeed(seedSequence, intToNote)
      ensures r.Success? ==>
        && DecodeSeed(seedSequence, intToNote).Success?
        && |r.value| == |seedSequence| + numSteps
        && DecodeSeed(seedSequence, intToNote).value <= r.value
      ensures
        && Valid()
        && vocabSize > 0
        && 0 < seqLength <= |seedSequence|
        && (forall i :: 0 <= i < |seedSequence| ==> |seedSequence[i]| == vocabSize)
        && (forall w :: |predict(w)| == vocabSize)
        ==> r.Success?
    {
      var g := Setting(intToNote, seqLength, vocabSize, predict);
      GenerateShape(seedSequence, numSteps, g);
      if
        && Valid()
        && vocabSize > 0
        && 0 < seqLength <= |seedSequence|
        && (forall i :: 0 <= i < |seedSequence| ==> |seedSequence[i]| == vocabSize)
        && (forall w :: |predict(w)| == vocabSize)
      {
        ValidGenerationSucceeds(seedSequence, numSteps, predict);
      }
      var decoded := DecodeSeed(seedSequence, intToNote);
      if decoded.Failure? {
        return Failure(decoded.error);
      }
      var run := RunSteps(Progress(decoded.value, seedSequence), numSteps, g);
      match run
      case Failure(e) => r := Failure(e);
      case Success(p) => r := Success(p.tokens);
    }

    /** Classifies every token for rendering: the items appended to the
        output stream and the tokens whose construction raised. */
    method CreateMidiFromNotes(notes: seq<string>, acceptsName: string -> bool)
      returns (stream: seq<Rendered>, rejected: seq<string>)
      ensures stream == RenderedItems(notes, acceptsName)
      ensures rejected == RejectedTokens(notes, acceptsName)
    {
      stream, rejected := [], [];
      for i := 0 to |notes|
        invariant stream == RenderedItems(notes[..i], acceptsName)
        invariant rejected == RejectedTokens(notes[..i], acceptsName)
      {
        var n := notes[i];
        assert notes[..i + 1][..i] == notes[..i];
        if n != "" && !IsDigits(n) {
          if '.' in n {
            var chordNotes := Split(n);
            match ParseAll(chordNotes)
            case None =>
              rejected := rejected + [n];
            case Some(pitchClasses) =>
              stream := stream + [ChordOf(Transpose(pitchClasses))];
          } else if acceptsName(n) {
            stream := stream + [NoteOf(n)];
          } else {
            rejected := rejected + [n];
          }
        }
      }
      assert notes[..|notes|] == notes;
    }
  }
}
