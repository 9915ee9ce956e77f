/** The dispatch loop with the scanner left open: `LexFrom` rebuilt over any
    function `step` that, like `Dispatch`, appends a token from the cursor to
    where it leaves it and never starts one at a separator, and the same loop
    without the progress test, bounded by fuel. What holds of the loop
    whatever the scanners do is proved here once, and carried over to
    `Dispatch` by `LexFromIsLoop` and `LexWithFuel`. */
module PascalLoop {
  import opened PascalTokens
  import opened PascalScan

  /** `step` behaves like a dispatch at every cursor in the text. */
  ghost predicate Scanner(text: string, step: nat -> Step) {
    forall i: nat :: i < |text| ==> Advances(text, i, step(i)) && (step(i).Next? ==> !IsSeparator(text[i]))
  }

  ghost function Loop(text: string, step: nat -> Step, p: nat, acc: seq<Token>): Outcome
    requires Scanner(text, step) && p <= |text|
    decreases |text| - p
  {
    if p == |text| then Done(acc)
    else
      match step(p)
      case Fail(f) => Failed(f)
      case Next(tok, q) =>
        var r := SkipSeparators(text, q);
        if r == p then Diverges(p) else Loop(text, step, r, acc + [tok])
  }

  ghost function BoundedLoop(text: string, step: nat -> Step, p: nat, acc: seq<Token>, fuel: nat): Bounded
    requires Scanner(text, step) && p <= |text|
    decreases fuel
  {
    if p == |text| then Finished(Done(acc))
    else if fuel == 0 then OutOfFuel
    else
      match step(p)
      case Fail(f) => Finished(Failed(f))
      case Next(tok, q) => BoundedLoop(text, step, SkipSeparators(text, q), acc + [tok], fuel - 1)
  }

  /** `Dispatch` as a scanner function on all cursors. */
  ghost function DispatchAt(text: string): nat -> Step {
    (i: nat) => if i < |text| then Dispatch(text, i) else Fail(LexingException(i))
  }

  lemma DispatchIsScanner(text: string)
    ensures Scanner(text, DispatchAt(text))
  {
    forall i: nat | i < |text|
      ensures Advances(text, i, DispatchAt(text)(i)) && (DispatchAt(text)(i).Next? ==> !IsSeparator(text[i]))
    {
      assert DispatchAt(text)(i) == Dispatch(text, i);
    }
  }

  lemma {:induction false} LexFromIsLoop(text: string, p: nat, acc: seq<Token>)
    requires p <= |text|
    ensures Scanner(text, DispatchAt(text))
    ensures LexFrom(text, p, acc) == Loop(text, DispatchAt(text), p, acc)
    decreases |text| - p
  {
    DispatchIsScanner(text);
    if p < |text| {
      assert DispatchAt(text)(p) == Dispatch(text, p);
      match Dispatch(text, p)
      case Fail(_) =>
      case Next(tok, q) =>
        var r := SkipSeparators(text, q);
        if r != p {
          LexFromIsLoop(text, r, acc + [tok]);
        }
    }
  }

  /** The source's loop, which has no progress test, over `Dispatch`, stopped
      after at most `fuel` iterations so that it is a function. */
  ghost function LexWithFuel(text: string, p: nat, acc: seq<Token>, fuel: nat): Bounded
    requires p <= |text|
  {
    DispatchIsScanner(text);
    BoundedLoop(text, DispatchAt(text), p, acc, fuel)
  }

  // ---------------------------------------------------------------------------
  // Layout of the tokens

  /** `toks`, whose first token starts at `p`, tile text[p..]: each token is
      non-empty and starts at a non-separator, and every character between two
      tokens, or after the last one, is a separator. */
  ghost predicate Tiles(text: string, p: nat, toks: seq<Token>)
    decreases |toks|
  {
    if toks == [] then p == |text|
    else
      var t := toks[0];
      var gapEnd := if |toks| == 1 then |text| else toks[1].range.start;
      t.range.start == p < t.range.end <= gapEnd <= |text| &&
      !IsSeparator(text[p]) &&
      (forall k :: t.range.end <= k < gapEnd ==> IsSeparator(text[k])) &&
      Tiles(text, gapEnd, toks[1..])
  }

  lemma {:induction false} LoopTiles(text: string, step: nat -> Step, p: nat, acc: seq<Token>)
    requires Scanner(text, step) && p <= |text|
    ensures Loop(text, step, p, acc).Done? ==>
              var ts := Loop(text, step, p, acc).tokens;
              |acc| <= |ts| && ts[..|acc|] == acc && Tiles(text, p, ts[|acc|..])
    decreases |text| - p
  {
    if p < |text| {
      match step(p)
      case Fail(_) =>
      case Next(tok, q) =>
        var r := SkipSeparators(text, q);
        if r != p {
          LoopTiles(text, step, r, acc + [tok]);
          var o := Loop(text, step, r, acc + [tok]);
          if o.Done? {
            var ts := o.tokens;
            var rest := ts[|acc| + 1..];
            assert ts[..|acc|] == acc by {
              assert ts[..|acc|] == ts[..|acc| + 1][..|acc|];
            }
            assert ts[|acc|] == tok;
            assert ts[|acc|..] == [tok] + rest;
            assert ([tok] + rest)[1..] == rest;
            assert rest != [] ==> rest[0].range.start == r;
            assert SkipSeparators(text, p) == p;
          }
        }
    }
  }

  /** Tiled tokens lie inside the text, are non-empty and strictly ordered. */
  lemma {:induction false} TilesOrdered(text: string, p: nat, toks: seq<Token>)
    requires Tiles(text, p, toks)
    ensures forall i :: 0 <= i < |toks| ==>
              p <= toks[i].range.start < toks[i].range.end <= |text|
    ensures forall i, j :: 0 <= i < j < |toks| ==> toks[i].range.end <= toks[j].range.start
    decreases |toks|
  {
    if toks != [] {
      var gapEnd := if |toks| == 1 then |text| else toks[1].range.start;
      TilesOrdered(text, gapEnd, toks[1..]);
      forall i, j | 0 <= i < j < |toks|
        ensures toks[i].range.end <= toks[j].range.start
      {
        if i > 0 {
          assert toks[i] == toks[1..][i - 1] && toks[j] == toks[1..][j - 1];
        } else {
          assert toks[j] == toks[1..][j - 1];
        }
      }
      forall i | 0 <= i < |toks|
        ensures p <= toks[i].range.start < toks[i].range.end <= |text|
      {
        if i > 0 {
          assert toks[i] == toks[1..][i - 1];
        }
      }
    }
  }

  // ---------------------------------------------------------------------------
  // Termination

  /** A run that ends, ends within one iteration per remaining character, and
      the unbounded loop returns what the run does. */
  lemma {:induction false} BoundedLoopAgrees(text: string, step: nat -> Step, p: nat, acc: seq<Token>, fuel: nat)
    requires Scanner(text, step) && p <= |text| && |text| - p <= fuel
    requires !Loop(text, step, p, acc).Diverges?
    ensures BoundedLoop(text, step, p, acc, fuel) == Finished(Loop(text, step, p, acc))
    decreases |text| - p
  {
    if p < |text| {
      match step(p)
      case Fail(_) =>
      case Next(tok, q) =>
        BoundedLoopAgrees(text, step, SkipSeparators(text, q), acc + [tok], fuel - 1);
    }
  }

  /** At a cursor whose iteration leaves it in place, the loop never finishes. */
  lemma {:induction false} BoundedLoopStuck(text: string, step: nat -> Step, p: nat, acc: seq<Token>, fuel: nat)
    requires Scanner(text, step) && p < |text| && step(p).Next?
    requires SkipSeparators(text, step(p).next) == p
    ensures BoundedLoop(text, step, p, acc, fuel) == OutOfFuel
    decreases fuel
  {
    if fuel > 0 {
      BoundedLoopStuck(text, step, p, acc + [step(p).token], fuel - 1);
    }
  }

  /** A run that diverges is one on which the loop runs out of any fuel. */
  lemma {:induction false} BoundedLoopDiverges(text: string, step: nat -> Step, p: nat, acc: seq<Token>, fuel: nat)
    requires Scanner(text, step) && p <= |text|
    requires Loop(text, step, p, acc).Diverges?
    ensures BoundedLoop(text, step, p, acc, fuel) == OutOfFuel
    decreases |text| - p
  {
    match step(p)
    case Next(tok, q) =>
      var r := SkipSeparators(text, q);
      if r == p {
        BoundedLoopStuck(text, step, p, acc, fuel);
      } else if fuel > 0 {
        BoundedLoopDiverges(text, step, r, acc + [tok], fuel - 1);
      }
  }
}
