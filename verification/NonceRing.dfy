/** The in-memory DPoP nonce source (sections 8 and 9 of RFC 9449): one rotating value, the
    value before it still accepted, entropy failures counted and survived. */
module NonceRing {
  import opened Base64
  import opened Sequences

  /** One read from the entropy source: it fails, or yields sixteen bytes. */
  datatype Draw = Fails | Yields(bytes: seq<byte>)

  type Entropy = d: Draw | d.Yields? ==> |d.bytes| == 16 witness Fails

  datatype Signal = Tick(draw: Entropy) | Cancel

  /** A nonce is the base64url form of the bytes drawn. */
  function Nonce(b: seq<byte>): (n: seq<byte>)
    ensures |b| == 16 ==> |n| == 22
  {
    Encode(Encoding(true, false), b)
  }

  // ----- the history a run leaves -----

  predicate Cancelled(signals: seq<Signal>) { exists i :: 0 <= i < |signals| && signals[i].Cancel? }

  /** Every value minted so far, oldest first: the first one and one per successful tick,
      until the context is cancelled. */
  function Minted(first: seq<byte>, signals: seq<Signal>): (m: seq<seq<byte>>)
    ensures m != []
  {
    if signals == [] then [first]
    else
      var init, last := signals[..|signals| - 1], signals[|signals| - 1];
      if Cancelled(init) || last.Cancel? || last.draw.Fails? then Minted(first, init)
      else Minted(first, init) + [Nonce(last.draw.bytes)]
  }

  function Failures(signals: seq<Signal>): nat
  {
    if signals == [] then 0
    else
      var init, last := signals[..|signals| - 1], signals[|signals| - 1];
      Failures(init) + if !Cancelled(init) && last.Tick? && last.draw.Fails? then 1 else 0
  }

  function Handled(signals: seq<Signal>): nat
  {
    if signals == [] then 0
    else
      var init, last := signals[..|signals| - 1], signals[|signals| - 1];
      Handled(init) + if !Cancelled(init) && last.Tick? then 1 else 0
  }

  /** n is one of the last two values minted. */
  predicate Recent(minted: seq<seq<byte>>, n: seq<byte>)
  {
    minted != [] && (n == minted[|minted| - 1] || (|minted| >= 2 && n == minted[|minted| - 2]))
  }

  /** Every tick handled either rotated or was counted as a failure. */
  lemma {:induction false} TicksAreAccountedFor(first: seq<byte>, signals: seq<Signal>)
    ensures |Minted(first, signals)| - 1 + Failures(signals) == Handled(signals)
  {
    if signals != [] { TicksAreAccountedFor(first, signals[..|signals| - 1]); }
  }

  lemma {:induction false} MintedIsNonEmpty(first: seq<byte>, signals: seq<Signal>)
    requires first != []
    ensures forall i :: 0 <= i < |Minted(first, signals)| ==> Minted(first, signals)[i] != []
  {
    if signals != [] { MintedIsNonEmpty(first, signals[..|signals| - 1]); }
  }

  lemma {:induction false} MintedGrows(first: seq<byte>, a: seq<Signal>, b: seq<Signal>)
    ensures Minted(first, a) <= Minted(first, a + b)
    ensures Cancelled(a) ==> Minted(first, a + b) == Minted(first, a)
    decreases |b|
  {
    if b == [] {
      assert a + b == a;
    } else {
      var n := |b| - 1;
      MintedGrows(first, a, b[..n]);
      assert (a + b)[..|a + b| - 1] == a + b[..n];
      if i :| 0 <= i < |a| && a[i].Cancel? { assert (a + b[..n])[i].Cancel?; }
    }
  }

  function Rotations(first: seq<byte>, a: seq<Signal>, b: seq<Signal>): int
  {
    |Minted(first, a + b)| - |Minted(first, a)|
  }

  /** The nonce issued after a is still accepted after b exactly until the second later
      rotation, if no later draw happens to repeat it. */
  lemma IssuedUntilSecondRotation(first: seq<byte>, a: seq<Signal>, b: seq<Signal>)
    ensures var m, k := Minted(first, a + b), |Minted(first, a)|;
            var issued := Minted(first, a)[k - 1];
            && (Rotations(first, a, b) <= 1 ==> Recent(m, issued))
            && (Rotations(first, a, b) >= 2 && (forall i :: k <= i < |m| ==> m[i] != issued) ==> !Recent(m, issued))
  {
    MintedGrows(first, a, b);
  }

  // ----- the source -----

  const Modulus: nat := 0x1_0000_0000_0000_0000

  /** One more, as a counter of 64 bits has it. */
  function Succ(n: nat): nat { if n + 1 == Modulus then 0 else n + 1 }

  lemma SuccWraps(n: nat)
    ensures Succ(n % Modulus) == (n + 1) % Modulus
  {
  }

  class Source {
    var current: seq<byte>
    var previous: seq<byte>
    var rotationFailures: nat

    /** The state agrees with the whole history since construction. */
    ghost predicate Agrees(first: seq<byte>, signals: seq<Signal>)
      reads this
    {
      var m := Minted(first, signals);
      && current == m[|m| - 1]
      && previous == (if |m| >= 2 then m[|m| - 2] else [])
      && rotationFailures == Failures(signals) % Modulus
    }

    constructor (first: seq<byte>)
      ensures Agrees(first, [])
    {
      current, previous, rotationFailures := first, [], 0;
    }

    method IssueNonce(ghost first: seq<byte>, ghost signals: seq<Signal>) returns (n: seq<byte>)
      requires Agrees(first, signals) && first != []
      ensures n == Minted(first, signals)[|Minted(first, signals)| - 1] && n != []
    {
      MintedIsNonEmpty(first, signals);
      n := current;
    }

    method Validate(nonce: seq<byte>, ghost first: seq<byte>, ghost signals: seq<Signal>) returns (ok: bool)
      requires Agrees(first, signals) && first != []
      ensures ok <==> Recent(Minted(first, signals), nonce)
    {
      MintedIsNonEmpty(first, signals);
      if nonce == [] { return false; }
      var snapshotCurrent, snapshotPrevious := current, previous;
      var matchCurrent := nonce == snapshotCurrent;
      var matchPrevious := nonce == snapshotPrevious;
      ok := matchCurrent || matchPrevious;
    }

    /** One tick: a fresh nonce, or one more counted failure. */
    method Rotate(draw: Entropy, ghost first: seq<byte>, ghost done: seq<Signal>)
      requires Agrees(first, done) && !Cancelled(done)
      modifies this
      ensures Agrees(first, done + [Tick(draw)])
    {
      OneSignal(first, done, Tick(draw));
      if draw.Fails? {
        rotationFailures := Succ(rotationFailures);
        SuccWraps(Failures(done));
        return;
      }
      previous := current;
      current := Nonce(draw.bytes);
    }

    /** The rotation goroutine: one signal at a time until the context is cancelled. */
    method Run(ghost first: seq<byte>, signals: seq<Signal>)
      requires Agrees(first, [])
      modifies this
      ensures Agrees(first, signals)
    {
      TakeAll(signals);
      for i := 0 to |signals|
        invariant Agrees(first, signals[..i]) && !Cancelled(signals[..i])
      {
        TakeSnoc(signals, i + 1);
        OneSignal(first, signals[..i], signals[i]);
        if signals[i].Cancel? {
          NothingAfterCancel(first, signals, i + 1);
          return;
        }
        Rotate(signals[i].draw, first, signals[..i]);
      }
    }
  }

  /** What one more signal adds to the history. */
  lemma OneSignal(first: seq<byte>, done: seq<Signal>, s: Signal)
    requires !Cancelled(done)
    ensures Minted(first, done + [s]) ==
            Minted(first, done) + if s.Tick? && !s.draw.Fails? then [Nonce(s.draw.bytes)] else []
    ensures Failures(done + [s]) == Failures(done) + if s.Tick? && s.draw.Fails? then 1 else 0
    ensures Cancelled(done + [s]) <==> s.Cancel?
  {
    var all := done + [s];
    assert all[..|done|] == done && all[|done|] == s;
  }

  lemma NothingAfterCancel(first: seq<byte>, signals: seq<Signal>, i: nat)
    requires i <= |signals| && Cancelled(signals[..i])
    ensures Minted(first, signals) == Minted(first, signals[..i]) && Failures(signals) == Failures(signals[..i])
  {
    assert signals == signals[..i] + signals[i..];
    CancelStops(first, signals[..i], signals[i..]);
  }

  lemma {:induction false} CancelStops(first: seq<byte>, a: seq<Signal>, b: seq<Signal>)
    requires Cancelled(a)
    ensures Minted(first, a + b) == Minted(first, a) && Failures(a + b) == Failures(a)
    decreases |b|
  {
    MintedGrows(first, a, b);
    if b == [] {
      assert a + b == a;
    } else {
      var n := |b| - 1;
      CancelStops(first, a, b[..n]);
      assert (a + b)[..|a + b| - 1] == a + b[..n];
      var i :| 0 <= i < |a| && a[i].Cancel?;
      assert (a + b[..n])[i].Cancel?;
    }
  }

  method NewSource(rotate: int, draw: Entropy) returns (src: Source?)
    ensures src == null <==> rotate <= 0 || draw.Fails?
    ensures src != null ==> fresh(src) && src.Agrees(Nonce(draw.bytes), []) && Nonce(draw.bytes) != []
  {
    if rotate <= 0 || draw.Fails? { return null; }
    src := new Source(Nonce(draw.bytes));
  }
}
