/**
 Bitboards: a set of board nodes as 64-bit words, packed by the analysis service and
 unpacked by the browser's worker. Node n is bit n % 64 of word n / 64. Words are natural
 numbers, so a shift halves or doubles; no bit may stand outside of the board.
 */
module Bitboards {
  import opened Results

  const WORD := 64
  const BITBOARD_WORDS := 5

  /** Bit b of a word: (word >> b) & 1. */
  predicate Bit(w: nat, b: nat)
  {
    if b == 0 then w % 2 == 1 else Bit(w / 2, b - 1)
  }

  /** word | (1 << b). */
  function SetBit(w: nat, b: nat): nat
  {
    if b == 0 then w / 2 * 2 + 1 else SetBit(w / 2, b - 1) * 2 + w % 2
  }

  /** word >> n. */
  function Shift(w: nat, n: nat): nat
  {
    if n == 0 then w else Shift(w / 2, n - 1)
  }

  lemma {:induction false} BitAfterSet(w: nat, b: nat, c: nat)
    ensures Bit(SetBit(w, b), c) <==> Bit(w, c) || b == c
  {
    if b > 0 && c > 0 {
      BitAfterSet(w / 2, b - 1, c - 1);
      assert (SetBit(w / 2, b - 1) * 2 + w % 2) / 2 == SetBit(w / 2, b - 1);
    }
  }

  lemma {:induction false} ZeroHasNoBit(b: nat)
    ensures !Bit(0, b)
  {
    if b > 0 { ZeroHasNoBit(b - 1); }
  }

  lemma {:induction false} BitSurvives(w: nat, n: nat, b: nat)
    requires b >= n && Bit(w, b)
    ensures Shift(w, n) != 0
  {
    if n > 0 {
      BitSurvives(w / 2, n - 1, b - 1);
    } else if w == 0 {
      ZeroHasNoBit(b);
    }
  }

  lemma {:induction false} SurvivingBit(w: nat, n: nat) returns (b: nat)
    requires Shift(w, n) != 0
    ensures b >= n && Bit(w, b)
  {
    if n > 0 {
      b := SurvivingBit(w / 2, n - 1);
      b := b + 1;
    } else {
      b := SomeBit(w);
    }
  }

  /** Something is left after a shift exactly when a bit at or above it is set. */
  lemma ShiftedAwayIff(w: nat, n: nat)
    ensures Shift(w, n) != 0 ==> exists b: nat :: b >= n && Bit(w, b)
    ensures forall b: nat :: b >= n && Bit(w, b) ==> Shift(w, n) != 0
  {
    hide Shift, Bit;
    if Shift(w, n) != 0 {
      var b := SurvivingBit(w, n);
      assert b >= n && Bit(w, b);
    }
    forall b: nat | b >= n && Bit(w, b) ensures Shift(w, n) != 0 { BitSurvives(w, n, b); }
  }

  lemma {:induction false} SomeBit(w: nat) returns (b: nat)
    requires w > 0
    ensures Bit(w, b)
  {
    if w % 2 == 1 {
      b := 0;
    } else {
      b := SomeBit(w / 2);
      b := b + 1;
    }
  }

  /** Node n stands at bit n % 64 of word n / 64. */
  predicate Has(words: seq<nat>, n: nat)
  {
    n / WORD < |words| && Bit(words[n / WORD], n % WORD)
  }

  function Marked(words: seq<nat>, n: nat): (r: seq<nat>)
    requires n / WORD < |words|
    ensures |r| == |words|
  {
    words[n / WORD := SetBit(words[n / WORD], n % WORD)]
  }

  lemma HasAfterMark(words: seq<nat>, n: nat, m: nat)
    requires n / WORD < |words|
    ensures Has(Marked(words, n), m) <==> Has(words, m) || m == n
  {
    if m / WORD == n / WORD {
      BitAfterSet(words[n / WORD], n % WORD, m % WORD);
    }
  }

  function Blank(): (words: seq<nat>)
    ensures |words| == BITBOARD_WORDS && forall i :: 0 <= i < |words| ==> words[i] == 0
    ensures forall n: nat :: !Has(words, n)
  {
    var words: seq<nat> := seq(BITBOARD_WORDS, _ => 0);
    assert forall n: nat :: !Has(words, n) by {
      forall n: nat ensures !Has(words, n) { ZeroHasNoBit(n % WORD); }
    }
    words
  }

  /** No word holds a bit outside the board or above its 64. */
  ghost predicate OnBoard(words: seq<nat>, nodeCount: nat, upTo: nat)
    requires upTo <= |words|
  {
    forall i, b: nat :: 0 <= i < upTo && Bit(words[i], b) ==> b < WORD && i * WORD + b < nodeCount
  }

  lemma MarkKeepsOnBoard(words: seq<nat>, nodeCount: nat, n: nat)
    requires OnBoard(words, nodeCount, |words|) && n < nodeCount && n / WORD < |words|
    ensures OnBoard(Marked(words, n), nodeCount, |words|)
  {
    var marked := Marked(words, n);
    forall i, b: nat | 0 <= i < |words| && Bit(marked[i], b)
      ensures b < WORD && i * WORD + b < nodeCount
    {
      if i == n / WORD {
        BitAfterSet(words[i], n % WORD, b);
      }
    }
  }

  lemma BlankIsOnBoard(nodeCount: nat)
    ensures OnBoard(Blank(), nodeCount, BITBOARD_WORDS)
  {
    forall i, b: nat | 0 <= i < BITBOARD_WORDS ensures !Bit(Blank()[i], b) { ZeroHasNoBit(b); }
  }

  /** A board fits the bitboard. */
  predicate Fits(nodeCount: nat) { nodeCount <= BITBOARD_WORDS * WORD }

  method PackStones(stones: seq<int>, player: int) returns (words: seq<nat>)
    requires Fits(|stones|)
    ensures |words| == BITBOARD_WORDS && OnBoard(words, |stones|, |words|)
    ensures forall n: nat :: Has(words, n) <==> n < |stones| && stones[n] == player
    ensures |words| == 5 && forall i: nat, b: nat :: i < 5 && b < 64 ==> (Bit(words[i], b) <==> 64 * i + b < |stones| && stones[64 * i + b] == player)
  {
    words := Blank();
    BlankIsOnBoard(|stones|);
    for node := 0 to |stones|
      invariant |words| == BITBOARD_WORDS && OnBoard(words, |stones|, |words|)
      invariant forall n: nat :: Has(words, n) <==> n < node && stones[n] == player
    {
      if stones[node] == player {
        MarkKeepsOnBoard(words, |stones|, node);
        forall n: nat ensures Has(Marked(words, node), n) <==> Has(words, n) || n == node { HasAfterMark(words, node, n); }
        words := Marked(words, node);
      }
    }
    forall i: nat, b: nat | i < 5 && b < 64
      ensures Bit(words[i], b) <==> 64 * i + b < |stones| && stones[64 * i + b] == player
    {
      assert (64 * i + b) / WORD == i && (64 * i + b) % WORD == b;
      assert Has(words, 64 * i + b) <==> Bit(words[i], b);
    }
  }

  /** The code's other packer: any node off the board is an error. */
  method PackNodes(nodes: seq<int>, nodeCount: nat) returns (result: Result<seq<nat>>)
    requires Fits(nodeCount)
    ensures result.Success? <==> forall i :: 0 <= i < |nodes| ==> 0 <= nodes[i] < nodeCount
    ensures result.Success? ==> |result.value| == BITBOARD_WORDS && OnBoard(result.value, nodeCount, BITBOARD_WORDS)
    ensures result.Success? ==> forall n: nat :: Has(result.value, n) <==> n in nodes
  {
    var words := Blank();
    BlankIsOnBoard(nodeCount);
    for i := 0 to |nodes|
      invariant |words| == BITBOARD_WORDS && OnBoard(words, nodeCount, |words|)
      invariant forall j :: 0 <= j < i ==> 0 <= nodes[j] < nodeCount
      invariant forall n: nat :: Has(words, n) <==> n in nodes[..i]
    {
      var node := nodes[i];
      if !(0 <= node < nodeCount) {
        return Failure("history node is off the board");
      }
      assert nodes[..i+1] == nodes[..i] + [node];
      MarkKeepsOnBoard(words, nodeCount, node);
      forall n: nat ensures Has(Marked(words, node), n) <==> Has(words, n) || n == node { HasAfterMark(words, node, n); }
      words := Marked(words, node);
    }
    assert nodes[..|nodes|] == nodes;
    return Success(words);
  }

  function Valid(nodeCount: nat, i: nat): nat
  {
    var first := i * WORD;
    if nodeCount <= first then 0 else if nodeCount - first < WORD then nodeCount - first else WORD
  }

  /** The ascending nodes of a bitboard, or an error for a bit off the board. */
  method NodesFromBits(words: seq<nat>, nodeCount: nat) returns (result: Result<seq<nat>>)
    requires forall i :: 0 <= i < |words| ==> Shift(words[i], WORD) == 0
    ensures result.Success? <==> OnBoard(words, nodeCount, |words|)
    ensures result.Success? ==>
      && (forall i, j :: 0 <= i < j < |result.value| ==> result.value[i] < result.value[j])
      && (forall n: nat :: n in result.value <==> Has(words, n))
  {
    var nodes: seq<nat> := [];
    for wordIndex := 0 to |words|
      invariant OnBoard(words, nodeCount, wordIndex)
      invariant forall i, j :: 0 <= i < j < |nodes| ==> nodes[i] < nodes[j]
      invariant forall n: nat :: n in nodes <==> Has(words, n) && n < wordIndex * WORD
    {
      var first := wordIndex * WORD;
      var valid := Valid(nodeCount, wordIndex);
      for bit := 0 to valid
        invariant forall i, j :: 0 <= i < j < |nodes| ==> nodes[i] < nodes[j]
        invariant forall n: nat :: n in nodes <==> Has(words, n) && n < first + bit
      {
        assert (first + bit) / WORD == wordIndex && (first + bit) % WORD == bit;
        if Bit(words[wordIndex], bit) {
          assert forall i :: 0 <= i < |nodes| ==> nodes[i] in nodes;
          nodes := nodes + [first + bit];
        }
      }
      ShiftedAwayIff(words[wordIndex], valid);
      ShiftedAwayIff(words[wordIndex], WORD);
      if valid < WORD && Shift(words[wordIndex], valid) != 0 {
        return Failure("contains off-board nodes");
      }
      forall n: nat
        ensures n in nodes <==> Has(words, n) && n < (wordIndex + 1) * WORD
      {
        if first + valid <= n < first + WORD {
          assert n / WORD == wordIndex && n % WORD == n - first;
          assert valid == WORD || (Shift(words[wordIndex], valid) == 0 && !Bit(words[wordIndex], n - first));
        }
      }
    }
    forall n: nat | Has(words, n) ensures n < |words| * WORD {}
    return Success(nodes);
  }

  /** Both players' bitboards are on the board and share no node. */
  ghost predicate Disjoint(zero: seq<nat>, one: seq<nat>)
  {
    forall n: nat :: !(Has(zero, n) && Has(one, n))
  }

  function StoneAt(zero: seq<nat>, one: seq<nat>, n: nat): int
  {
    if Has(zero, n) then 0 else if Has(one, n) then 1 else -1
  }

  predicate WordSized(words: seq<nat>)
  {
    forall i :: 0 <= i < |words| ==> Shift(words[i], WORD) == 0
  }

  method StonesFromWasm(zero: seq<nat>, one: seq<nat>, nodeCount: nat) returns (result: Result<seq<int>>)
    requires WordSized(zero) && WordSized(one)
    ensures result.Success? <==> OnBoard(zero, nodeCount, |zero|) && OnBoard(one, nodeCount, |one|) && Disjoint(zero, one)
    ensures result.Success? ==> |result.value| == nodeCount && forall n: nat :: n < nodeCount ==> result.value[n] == StoneAt(zero, one, n)
  {
    var zeros := NodesFromBits(zero, nodeCount);
    if zeros.Failure? {
      return Failure(zeros.error);
    }
    OnBoardNodes(zero, nodeCount);
    var stones := seq(nodeCount, _ => -1);
    for k := 0 to |zeros.value|
      invariant |stones| == nodeCount
      invariant forall n: nat :: n < nodeCount ==> stones[n] == if n in zeros.value[..k] then 0 else -1
    {
      var node := zeros.value[k];
      assert node in zeros.value && Has(zero, node);
      assert zeros.value[..k+1] == zeros.value[..k] + [node];
      stones := stones[node := 0];
    }
    assert zeros.value[..|zeros.value|] == zeros.value;
    var ones := NodesFromBits(one, nodeCount);
    if ones.Failure? {
      return Failure(ones.error);
    }
    OnBoardNodes(one, nodeCount);
    for k := 0 to |ones.value|
      invariant |stones| == nodeCount
      invariant forall n: nat :: n < nodeCount ==> stones[n] == if Has(zero, n) then 0 else if n in ones.value[..k] then 1 else -1
      invariant forall n :: n in ones.value[..k] ==> !Has(zero, n)
    {
      var node := ones.value[k];
      assert node in ones.value && Has(one, node);
      assert ones.value[..k+1] == ones.value[..k] + [node];
      assert forall j :: 0 <= j < k ==> ones.value[j] < node;
      if stones[node] != -1 {
        assert Has(zero, node);
        return Failure("WASM state contains overlapping stones.");
      }
      stones := stones[node := 1];
    }
    assert ones.value[..|ones.value|] == ones.value;
    return Success(stones);
  }

  lemma OnBoardNodes(words: seq<nat>, nodeCount: nat)
    requires OnBoard(words, nodeCount, |words|)
    ensures forall n: nat :: Has(words, n) ==> n < nodeCount
  {
    forall n: nat | Has(words, n) ensures n < nodeCount {
      assert Bit(words[n / WORD], n % WORD);
      assert n == n / WORD * WORD + n % WORD;
    }
  }

  lemma OnBoardIsWordSized(words: seq<nat>, nodeCount: nat)
    requires OnBoard(words, nodeCount, |words|)
    ensures WordSized(words)
  {
    forall i | 0 <= i < |words| ensures Shift(words[i], WORD) == 0 {
      ShiftedAwayIff(words[i], WORD);
    }
  }

  /** What the packer writes, the worker reads back: every stone at its node, and no error. */
  method StonesRoundTrip(stones: seq<int>) returns (result: Result<seq<int>>)
    requires Fits(|stones|) && forall u :: 0 <= u < |stones| ==> stones[u] in {-1, 0, 1}
    ensures result == Success(stones)
  {
    var zero := PackStones(stones, 0);
    var one := PackStones(stones, 1);
    OnBoardIsWordSized(zero, |stones|);
    OnBoardIsWordSized(one, |stones|);
    hide OnBoard, Has;
    result := StonesFromWasm(zero, one, |stones|);
    assert result.Success?;
    forall n: nat | n < |stones| ensures result.value[n] == stones[n] {}
    assert result.value == stones;
  }

  /** The same for the history's node lists: they come back sorted and without repetition. */
  method NodesRoundTrip(nodes: seq<int>, nodeCount: nat) returns (result: Result<seq<nat>>)
    requires Fits(nodeCount)
    ensures result.Success? <==> forall i :: 0 <= i < |nodes| ==> 0 <= nodes[i] < nodeCount
    ensures result.Success? ==> forall n: nat :: n in result.value <==> n in nodes
    ensures result.Success? ==> forall i, j :: 0 <= i < j < |result.value| ==> result.value[i] < result.value[j]
  {
    var packed := PackNodes(nodes, nodeCount);
    if packed.Failure? {
      return Failure(packed.error);
    }
    OnBoardIsWordSized(packed.value, nodeCount);
    result := NodesFromBits(packed.value, nodeCount);
  }
}
