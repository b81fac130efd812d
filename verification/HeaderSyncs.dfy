/**
 Syncing headers from a peer in two phases: first keep only one-bit commitments to a chain until it
 has enough work, then download it again, check it against them, and release headers with a delay.
 */
module HeaderSyncs {
  import opened HeaderChains

  datatype Phase = Presync | Redownload | Final

  /** What is known in the first phase; `seen` are the headers accepted so far. */
  ghost predicate PresyncOk(p: Params, seen: seq<Header>, height: nat, work: nat, last: Header, commitments: seq<bool>) {
    && p.Valid() && p.Permitted(seen) && |p.Bits(seen)| <= p.maxCommitments
    && height == p.startHeight + |seen| && work == p.Work(seen) && commitments == p.Bits(seen)
    && last == (if seen == [] then p.start else seen[|seen| - 1])
  }

  /** Until the work is reached, the chain matches every commitment at its heights. */
  ghost predicate MatchesAt(p: Params, seen: seq<Header>, again: seq<Header>, k: nat)
    requires p.Valid() && k <= |again|
  {
    p.Work(again[..k]) < p.minWork ==> p.Bits(again[..k]) <= p.Bits(seen)
  }

  /** The headers `again` accepted in the second phase link, have permitted difficulties and match the commitments. */
  ghost predicate AcceptedOk(p: Params, seen: seq<Header>, again: seq<Header>) {
    && p.Valid() && p.Linked(again) && p.Permitted(again)
    && forall k: nat | k <= |again| :: MatchesAt(p, seen, again, k)
  }

  /** What is known in the second phase; `again` are the headers accepted in it. */
  ghost predicate RedownloadOk(p: Params, seen: seq<Header>, again: seq<Header>, height: nat, lastHash: Hash, work: nat, all: bool, commitments: seq<bool>) {
    && AcceptedOk(p, seen, again) && p.Work(seen) >= p.minWork && |p.Bits(seen)| <= p.maxCommitments
    && height == p.startHeight + |again| && lastHash == p.HashBefore(again, |again|) && work == p.Work(again)
    && (all <==> again != [] && work >= p.minWork)
    && |commitments| <= |p.Bits(seen)|
    && (!all ==> p.Bits(again) + commitments == p.Bits(seen))
  }

  /** The headers accepted in the second phase are those released, and then those in the buffer. */
  ghost predicate BufferOk(p: Params, again: seq<Header>, released: seq<Header>, buffer: seq<Compressed>, firstPrev: Hash) {
    again == released + p.Expanded(buffer, firstPrev) && firstPrev == p.HashBefore(released, |released|)
  }

  /** Headers are released in order, and only with enough headers behind them unless the work is reached. */
  ghost predicate ReleasedOk(p: Params, again: seq<Header>, released: seq<Header>) {
    && released <= again
    && (released == [] || p.Work(again) >= p.minWork || |released| + p.bufferSize <= |again|)
  }

  /** Linked headers of permitted difficulty that agree with those of the first phase, as far as both go. */
  ghost predicate Resends(p: Params, seen: seq<Header>, again: seq<Header>) {
    && p.Linked(again) && p.Permitted(again)
    && forall i | 0 <= i < |seen| && i < |again| :: again[i] == seen[i]
  }

  /** When the next header of the second phase is accepted. */
  ghost predicate Accepts(p: Params, again: seq<Header>, commitments: seq<bool>, h: Header)
    requires p.Valid()
  {
    && h.prev == p.HashBefore(again, |again|)
    && p.permitted(p.startHeight + |again| + 1, p.BitsBefore(again, |again|), h.bits)
    && (p.Work(again) + p.proof(h) < p.minWork && p.Commits(p.startHeight + |again| + 1) ==>
          commitments != [] && commitments[0] == p.bit(p.hash(h)))
  }

  lemma {:induction false} PresyncNext(p: Params, seen: seq<Header>, height: nat, work: nat, last: Header, commitments: seq<bool>, h: Header)
    requires PresyncOk(p, seen, height, work, last, commitments)
    requires p.permitted(height + 1, last.bits, h.bits)
    requires |p.Bits(seen + [h])| <= p.maxCommitments
    ensures PresyncOk(p, seen + [h], height + 1, work + p.proof(h), h, p.Bits(seen + [h]))
  {
    NextWork(p, seen, h);
    NextPermitted(p, seen, h);
  }

  /** A header that cannot follow cannot be part of any longer permitted chain. */
  lemma {:induction false} PresyncRefuses(p: Params, seen: seq<Header>, h: Header, rest: seq<Header>)
    requires p.Valid()
    requires p.Permitted(seen + [h] + rest) && |p.Bits(seen + [h] + rest)| <= p.maxCommitments
    ensures p.permitted(p.startHeight + |seen| + 1, p.BitsBefore(seen, |seen|), h.bits)
    ensures |p.Bits(seen + [h])| <= p.maxCommitments
  {
    var whole := seen + [h] + rest;
    assert p.PermittedAt(whole, |seen|);
    assert whole[..|seen| + 1] == seen + [h];
    BitsPrefix(p, whole, |seen| + 1);
  }

  lemma {:induction false} RedownloadStart(p: Params, seen: seq<Header>)
    requires p.Valid() && p.Work(seen) >= p.minWork && |p.Bits(seen)| <= p.maxCommitments
    ensures RedownloadOk(p, seen, [], p.startHeight, p.hash(p.start), p.startWork, false, p.Bits(seen))
    ensures BufferOk(p, [], [], [], p.hash(p.start)) && ReleasedOk(p, [], [])
  {
    AcceptedNone(p, seen);
  }

  lemma {:induction false} AcceptedNone(p: Params, seen: seq<Header>)
    requires p.Valid()
    ensures AcceptedOk(p, seen, [])
  {
    forall k: nat | k <= 0 ensures MatchesAt(p, seen, [], k) { assert p.Bits([]) == []; }
  }

  lemma {:induction false} AcceptedNext(p: Params, seen: seq<Header>, again: seq<Header>, h: Header)
    requires AcceptedOk(p, seen, again)
    requires h.prev == p.HashBefore(again, |again|) && p.permitted(p.startHeight + |again| + 1, p.BitsBefore(again, |again|), h.bits)
    requires p.Work(again + [h]) < p.minWork ==> p.Bits(again + [h]) <= p.Bits(seen)
    ensures AcceptedOk(p, seen, again + [h])
  {
    hide p.Permitted, p.Linked, p.Work, p.Bits;
    NextLinked(p, again, h);
    NextPermitted(p, again, h);
    var more := again + [h];
    forall k: nat | k <= |more| ensures MatchesAt(p, seen, more, k) {
      if k <= |again| {
        assert MatchesAt(p, seen, again, k) && more[..k] == again[..k];
      } else {
        assert more[..k] == more;
      }
    }
  }

  lemma {:induction false} RedownloadNext(p: Params, seen: seq<Header>, again: seq<Header>, height: nat, lastHash: Hash, work: nat, all: bool, commitments: seq<bool>, h: Header, rest: seq<bool>)
    requires RedownloadOk(p, seen, again, height, lastHash, work, all, commitments)
    requires Accepts(p, again, commitments, h)
    requires var checks := work + p.proof(h) < p.minWork && p.Commits(height + 1);
             if checks then commitments != [] && rest == commitments[1..] else rest == commitments
    ensures RedownloadOk(p, seen, again + [h], height + 1, p.hash(h), work + p.proof(h), work + p.proof(h) >= p.minWork, rest)
  {
    hide AcceptedOk, p.Work, p.Bits;
    RedownloadFacts(p, seen, again, height, lastHash, work, all, commitments);
    NextWork(p, again, h);
    NextBits(p, again, h);
    if work + p.proof(h) < p.minWork {
      assert p.Bits(again) + commitments == p.Bits(seen);
      if p.Commits(height + 1) { assert p.Bits(again + [h]) + rest == p.Bits(again) + commitments; }
      assert p.Bits(again + [h]) + rest == p.Bits(seen);
    }
    AcceptedNext(p, seen, again, h);
  }

  /** A peer that sends its chain again, possibly extended, is never refused. */
  lemma {:induction false} ResendAccepted(p: Params, seen: seq<Header>, again: seq<Header>, height: nat, lastHash: Hash, work: nat, all: bool, commitments: seq<bool>, h: Header, rest: seq<Header>)
    requires RedownloadOk(p, seen, again, height, lastHash, work, all, commitments)
    requires Resends(p, seen, again + [h] + rest)
    ensures Accepts(p, again, commitments, h)
  {
    var n, whole := |again|, again + [h] + rest;
    assert p.LinkedAt(whole, n) && p.PermittedAt(whole, n);
    if work + p.proof(h) < p.minWork && p.Commits(height + 1) {
      ResentFits(p, seen, again, h, rest);
      assert seen[..n + 1] == again + [h];
      BitsPrefix(p, seen, n + 1);
      NextBits(p, again, h);
      assert p.Bits(again) + commitments == p.Bits(seen);
      assert p.Bits(seen)[|p.Bits(again)|] == p.bit(p.hash(h));
    }
  }

  /** Headers that link, have permitted difficulties and match the commitments are accepted one by one. */
  lemma {:induction false} AcceptedPasses(p: Params, seen: seq<Header>, again: seq<Header>, height: nat, lastHash: Hash, work: nat, all: bool, commitments: seq<bool>, h: Header, rest: seq<Header>)
    requires RedownloadOk(p, seen, again, height, lastHash, work, all, commitments)
    requires AcceptedOk(p, seen, again + [h] + rest)
    ensures Accepts(p, again, commitments, h)
  {
    hide p.Work, p.Bits;
    var n, whole := |again|, again + [h] + rest;
    assert p.LinkedAt(whole, n) && p.PermittedAt(whole, n);
    if work + p.proof(h) < p.minWork && p.Commits(height + 1) {
      NextWork(p, again, h);
      NextBits(p, again, h);
      assert MatchesAt(p, seen, whole, n + 1) && whole[..n + 1] == again + [h];
      assert p.Bits(again) + commitments == p.Bits(seen);
      assert p.Bits(seen)[|p.Bits(again)|] == p.Bits(again + [h])[|p.Bits(again)|] == p.bit(p.hash(h));
    }
  }

  /** The work of the first phase is reached no later than its last header. */
  lemma {:induction false} ResentFits(p: Params, seen: seq<Header>, again: seq<Header>, h: Header, rest: seq<Header>)
    requires p.Work(seen) >= p.minWork && p.Work(again) + p.proof(h) < p.minWork
    requires Resends(p, seen, again + [h] + rest)
    ensures |again| < |seen| && seen[..|again| + 1] == again + [h]
  {
    var more, whole := again + [h], again + [h] + rest;
    NextWork(p, again, h);
    if |seen| <= |again| {
      forall i | 0 <= i < |seen| ensures seen[i] == more[i] { assert whole[i] == more[i]; }
      assert more[..|seen|] == seen;
      WorkGrows(p, more, |seen|);
    }
    forall i | 0 <= i <= |again| ensures seen[i] == more[i] { assert whole[i] == more[i]; }
  }

  lemma {:induction false} BufferNext(p: Params, again: seq<Header>, released: seq<Header>, buffer: seq<Compressed>, firstPrev: Hash, h: Header)
    requires BufferOk(p, again, released, buffer, firstPrev) && h.prev == p.HashBefore(again, |again|)
    ensures BufferOk(p, again + [h], released, buffer + [Compress(h)], firstPrev)
  {
    hide p.Expanded;
    ExpandedPush(p, buffer, firstPrev, h);
  }

  lemma {:induction false} BufferPop(p: Params, again: seq<Header>, released: seq<Header>, buffer: seq<Compressed>, firstPrev: Hash)
    requires BufferOk(p, again, released, buffer, firstPrev) && buffer != []
    ensures var first := buffer[0].Full(firstPrev);
            BufferOk(p, again, released + [first], buffer[1..], p.hash(first))
  {
    hide p.Expanded;
    ExpandedPop(p, buffer, firstPrev);
  }

  /** The last stored header is the last accepted one. */
  lemma {:induction false} BufferBack(p: Params, again: seq<Header>, released: seq<Header>, buffer: seq<Compressed>, firstPrev: Hash)
    requires BufferOk(p, again, released, buffer, firstPrev)
    ensures |again| == |released| + |buffer|
    ensures buffer != [] ==> again != [] && again[|again| - 1].bits == buffer[|buffer| - 1].bits
  {
    hide p.Expanded;
    ExpandedLength(p, buffer, firstPrev);
  }

  /** A header can be released once enough headers are behind it, or the work is reached. */
  lemma {:induction false} ReleasedPop(p: Params, again: seq<Header>, released: seq<Header>, buffer: seq<Compressed>, firstPrev: Hash)
    requires ReleasedOk(p, again, released) && BufferOk(p, again, released, buffer, firstPrev)
    requires buffer != [] && (|buffer| > p.bufferSize || p.Work(again) >= p.minWork)
    ensures ReleasedOk(p, again, released + [buffer[0].Full(firstPrev)])
  {
    hide p.Expanded;
    ExpandedLength(p, buffer, firstPrev);
    ExpandedPop(p, buffer, firstPrev);
  }

  lemma {:induction false} ReleasedFacts(p: Params, again: seq<Header>, released: seq<Header>)
    requires ReleasedOk(p, again, released)
    ensures released == [] || p.Work(again) >= p.minWork || |released| + p.bufferSize <= |again|
  {}

  lemma {:induction false} AllReleased(p: Params, again: seq<Header>, released: seq<Header>, firstPrev: Hash)
    requires BufferOk(p, again, released, [], firstPrev)
    ensures released == again
  {}

  /** Accepting more headers never makes a release premature. */
  lemma {:induction false} ReleasedNext(p: Params, again: seq<Header>, released: seq<Header>, h: Header)
    requires ReleasedOk(p, again, released)
    ensures ReleasedOk(p, again + [h], released)
  {
    NextWork(p, again, h);
  }

  class HeadersSync {
    const p: Params
    var phase: Phase
    // First phase.
    var currentHeight: nat
    var currentWork: nat
    var last: Header
    var commitments: seq<bool>
    // Second phase.
    var buffer: seq<Compressed>
    var lastHeight: nat
    var lastHash: Hash
    var firstPrev: Hash
    var redownloadWork: nat
    var processAll: bool
    // The headers accepted in each phase and those given to the caller.
    ghost var seen: seq<Header>
    ghost var again: seq<Header>
    ghost var released: seq<Header>

    ghost predicate Presyncing()
      reads this
    {
      && phase == Presync && again == [] && released == [] && !processAll
      && PresyncOk(p, seen, currentHeight, currentWork, last, commitments)
    }

    /** The second phase while a message is processed. */
    ghost predicate Redownloading()
      reads this
    {
      && phase == Redownload && (again != [] ==> buffer != [])
      && RedownloadOk(p, seen, again, lastHeight, lastHash, redownloadWork, processAll, commitments)
      && BufferOk(p, again, released, buffer, firstPrev)
      && ReleasedOk(p, again, released)
    }

    /** Between messages. */
    ghost predicate Valid()
      reads this
    {
      && |commitments| <= p.maxCommitments
      && AcceptedOk(p, seen, again) && ReleasedOk(p, again, released)
      && match phase
         case Presync => Presyncing()
         case Redownload => Redownloading() && !processAll
         case Final => commitments == [] && buffer == []
    }

    constructor (p: Params)
      requires p.Valid()
      ensures Valid() && this.p == p && phase == Presync && seen == [] && released == []
    {
      this.p := p;
      phase := Presync;
      currentHeight, currentWork, last, commitments := p.startHeight, p.startWork, p.start, [];
      buffer, lastHeight, lastHash, firstPrev, redownloadWork, processAll := [], 0, 0, 0, 0, false;
      seen, again, released := [], [], [];
      AcceptedNone(p, []);
    }

    /** Process one header of the first phase. */
    method ProcessSingle(h: Header) returns (ok: bool)
      requires Presyncing()
      modifies `currentHeight, `currentWork, `last, `commitments, `seen
      ensures ok <==> p.permitted(p.startHeight + old(|seen|) + 1, p.BitsBefore(old(seen), |old(seen)|), h.bits) && |p.Bits(old(seen) + [h])| <= p.maxCommitments
      ensures ok ==> Presyncing() && seen == old(seen) + [h]
    {
      hide PresyncOk, p.Permitted, p.Bits, p.Work;
      PresyncFacts(p, seen, currentHeight, currentWork, last, commitments);
      NextBits(p, seen, h);
      var next := currentHeight + 1;
      if !p.permitted(next, last.bits, h.bits) { return false; }
      if p.Commits(next) {
        commitments := commitments + [p.bit(p.hash(h))];
        if |commitments| > p.maxCommitments { return false; }
      }
      assert commitments == p.Bits(seen + [h]);
      PresyncNext(p, seen, currentHeight, currentWork, last, p.Bits(seen), h);
      currentWork := currentWork + p.proof(h);
      last := h;
      currentHeight := next;
      seen := seen + [h];
      return true;
    }

    /** Process a message of the first phase; enough work starts the second. */
    method StoreCommitments(headers: seq<Header>) returns (ok: bool)
      requires Presyncing() && headers != []
      modifies this
      ensures ok <==> headers[0].prev == p.HashBefore(old(seen), |old(seen)|) && p.Permitted(old(seen) + headers) && |p.Bits(old(seen) + headers)| <= p.maxCommitments
      ensures ok ==> seen == old(seen) + headers && released == []
      ensures ok ==> if p.Work(seen) >= p.minWork then Redownloading() && again == [] && !processAll else Presyncing()
      ensures !ok ==> again == [] && released == []
      ensures AcceptedOk(p, seen, again)
    {
      hide AcceptedOk, PresyncOk, RedownloadOk, BufferOk, ReleasedOk, p.Permitted, p.Bits, p.Work;
      PresyncFacts(p, seen, currentHeight, currentWork, last, commitments);
      AcceptedNone(p, seen);
      if headers[0].prev != p.hash(last) { return false; }
      ok := ProcessAllHeaders(headers);
      AcceptedNone(p, seen);
      if !ok { return; }
      PresyncFacts(p, seen, currentHeight, currentWork, last, commitments);
      if currentWork >= p.minWork { StartRedownload(); }
    }

    method StartRedownload()
      requires Presyncing() && p.Work(seen) >= p.minWork
      modifies `buffer, `lastHeight, `firstPrev, `lastHash, `redownloadWork, `phase
      ensures Redownloading()
    {
      hide AcceptedOk, PresyncOk, RedownloadOk, BufferOk, ReleasedOk, p.Permitted, p.Bits, p.Work;
      PresyncFacts(p, seen, currentHeight, currentWork, last, commitments);
      RedownloadStart(p, seen);
      buffer := [];
      lastHeight := p.startHeight;
      firstPrev := p.hash(p.start);
      lastHash := p.hash(p.start);
      redownloadWork := p.startWork;
      phase := Redownload;
    }

    method ProcessAllHeaders(headers: seq<Header>) returns (ok: bool)
      requires Presyncing()
      modifies `currentHeight, `currentWork, `last, `commitments, `seen
      ensures ok <==> p.Permitted(old(seen) + headers) && |p.Bits(old(seen) + headers)| <= p.maxCommitments
      ensures ok ==> Presyncing() && seen == old(seen) + headers
    {
      hide AcceptedOk, PresyncOk, p.Permitted, p.Bits;
      for i := 0 to |headers|
        invariant Presyncing() && seen == old(seen) + headers[..i]
      {
        ghost var was, rest := seen, headers[i + 1..];
        PresyncFacts(p, seen, currentHeight, currentWork, last, commitments);
        ok := ProcessSingle(headers[i]);
        assert was + [headers[i]] == old(seen) + headers[..i + 1];
        if !ok {
          assert was + [headers[i]] + rest == old(seen) + headers;
          if p.Permitted(old(seen) + headers) && |p.Bits(old(seen) + headers)| <= p.maxCommitments {
            PresyncRefuses(p, was, headers[i], rest);
          }
          return;
        }
      }
      ok := true;
      assert headers[..|headers|] == headers;
      PresyncFacts(p, seen, currentHeight, currentWork, last, commitments);
    }

    /** Compare a header with the next commitment, at the heights that have one and until the work is reached. */
    method CheckCommitment(h: Header, height: nat) returns (ok: bool)
      requires p.Valid()
      modifies `commitments
      ensures var checks := !processAll && p.Commits(height);
              && (ok <==> checks ==> old(commitments) != [] && old(commitments)[0] == p.bit(p.hash(h)))
              && (ok ==> commitments == if checks then old(commitments)[1..] else old(commitments))
    {
      if processAll || !p.Commits(height) { return true; }
      if |commitments| == 0 { return false; }
      var expected := commitments[0];
      commitments := commitments[1..];
      return p.bit(p.hash(h)) == expected;
    }

    /** Check one header of the second phase against the commitments and store it. */
    method StoreRedownloaded(h: Header) returns (ok: bool)
      requires Redownloading()
      modifies `buffer, `lastHeight, `lastHash, `redownloadWork, `processAll, `commitments, `again
      ensures ok <==> Accepts(p, old(again), old(commitments), h)
      ensures ok ==> Redownloading() && again == old(again) + [h]
      ensures !ok ==> again == old(again)
    {
      hide AcceptedOk, RedownloadOk, BufferOk, ReleasedOk, p.Work;
      RedownloadFacts(p, seen, again, lastHeight, lastHash, redownloadWork, processAll, commitments);
      BufferBack(p, again, released, buffer, firstPrev);
      var next := lastHeight + 1;
      if h.prev != lastHash { return false; }
      var previousBits := if buffer != [] then buffer[|buffer| - 1].bits else p.start.bits;
      if !p.permitted(next, previousBits, h.bits) { return false; }
      redownloadWork := redownloadWork + p.proof(h);
      if redownloadWork >= p.minWork { processAll := true; }
      assert processAll == (redownloadWork >= p.minWork);
      ok := CheckCommitment(h, next);
      if ok {
        RedownloadNext(p, seen, again, lastHeight, lastHash, old(redownloadWork), old(processAll), old(commitments), h, commitments);
        Store(h);
      }
    }

    /** Append a header to the buffer. */
    method Store(h: Header)
      requires phase == Redownload && h.prev == p.HashBefore(again, |again|)
      requires BufferOk(p, again, released, buffer, firstPrev) && ReleasedOk(p, again, released)
      requires RedownloadOk(p, seen, again + [h], lastHeight + 1, p.hash(h), redownloadWork, processAll, commitments)
      modifies `buffer, `lastHeight, `lastHash, `again
      ensures Redownloading() && again == old(again) + [h]
    {
      hide AcceptedOk, RedownloadOk, BufferOk, ReleasedOk;
      BufferNext(p, again, released, buffer, firstPrev, h);
      ReleasedNext(p, again, released, h);
      buffer := buffer + [Compress(h)];
      lastHeight := lastHeight + 1;
      lastHash := p.hash(h);
      again := again + [h];
    }

    method StoreAllRedownloaded(headers: seq<Header>) returns (ok: bool)
      requires Redownloading() && headers != []
      modifies `buffer, `lastHeight, `lastHash, `redownloadWork, `processAll, `commitments, `again
      ensures ok <==> AcceptedOk(p, seen, old(again) + headers)
      ensures Resends(p, seen, old(again) + headers) ==> ok
      ensures ok ==> Redownloading() && again == old(again) + headers
      ensures AcceptedOk(p, seen, again) && ReleasedOk(p, again, released)
    {
      hide AcceptedOk, RedownloadOk, BufferOk, ReleasedOk, Resends, Accepts;
      for i := 0 to |headers|
        invariant Redownloading() && again == old(again) + headers[..i]
      {
        ghost var was, rest := again, headers[i + 1..];
        RedownloadFacts(p, seen, again, lastHeight, lastHash, redownloadWork, processAll, commitments);
        ghost var height, hash, work, all, bits := lastHeight, lastHash, redownloadWork, processAll, commitments;
        ok := StoreRedownloaded(headers[i]);
        assert was + [headers[i]] == old(again) + headers[..i + 1];
        if !ok {
          assert was + [headers[i]] + rest == old(again) + headers;
          if Resends(p, seen, old(again) + headers) {
            ResendAccepted(p, seen, was, height, hash, work, all, bits, headers[i], rest);
          }
          if AcceptedOk(p, seen, old(again) + headers) {
            AcceptedPasses(p, seen, was, height, hash, work, all, bits, headers[i], rest);
          }
          return;
        }
      }
      ok := true;
      assert headers[..|headers|] == headers;
      RedownloadFacts(p, seen, again, lastHeight, lastHash, redownloadWork, processAll, commitments);
    }

    /** Release the headers that have enough others behind them, or all if the work is reached. */
    method PopReady() returns (ready: seq<Header>)
      requires Redownloading()
      modifies `buffer, `firstPrev, `released
      ensures released == old(released) + ready
      ensures BufferOk(p, again, released, buffer, firstPrev) && ReleasedOk(p, again, released)
      ensures if processAll then buffer == [] && released == again else |buffer| <= p.bufferSize && Redownloading()
    {
      hide AcceptedOk, RedownloadOk, BufferOk, ReleasedOk;
      ready := [];
      RedownloadFacts(p, seen, again, lastHeight, lastHash, redownloadWork, processAll, commitments);
      while |buffer| > p.bufferSize || (|buffer| > 0 && processAll)
        invariant released == old(released) + ready
        invariant BufferOk(p, again, released, buffer, firstPrev) && ReleasedOk(p, again, released)
        invariant again != [] && !processAll ==> buffer != []
        decreases |buffer|
      {
        var first := buffer[0].Full(firstPrev);
        BufferPop(p, again, released, buffer, firstPrev);
        BufferBack(p, again, released, buffer, firstPrev);
        ReleasedPop(p, again, released, buffer, firstPrev);
        ready := ready + [first];
        released := released + [first];
        buffer := buffer[1..];
        firstPrev := p.hash(first);
      }
      BufferBack(p, again, released, buffer, firstPrev);
      if processAll { AllReleased(p, again, released, firstPrev); }
    }

    /** Give up everything that is stored. */
    method Finalize()
      requires AcceptedOk(p, seen, again) && ReleasedOk(p, again, released)
      modifies `phase, `commitments, `last, `buffer, `lastHash, `firstPrev, `processAll, `currentHeight
      ensures Valid() && phase == Final && commitments == [] && buffer == [] && last == Header(0, 0, 0, 0, 0, 0, 0, 0)
      ensures lastHash == 0 && firstPrev == 0 && !processAll && currentHeight == 0
    {
      commitments, buffer := [], [];
      last := Header(0, 0, 0, 0, 0, 0, 0, 0);
      lastHash, firstPrev, processAll, currentHeight := 0, 0, false, 0;
      phase := Final;
    }

    /** Process a message; `full` if the peer may have more headers. */
    method ProcessNext(headers: seq<Header>, full: bool) returns (success: bool, more: bool, ready: seq<Header>)
      requires Valid()
      modifies this
      ensures Valid()
      ensures released == old(released) + ready
      ensures old(phase) == Final || headers == [] ==> !success && !more && ready == [] && unchanged(this)
      ensures old(phase) != Final && headers != [] ==> (phase != Final <==> success && more)
      ensures old(phase) == Presync && headers != [] ==>
                (success <==> headers[0].prev == p.HashBefore(old(seen), |old(seen)|) && p.Permitted(old(seen) + headers) && |p.Bits(old(seen) + headers)| <= p.maxCommitments)
      ensures old(phase) == Presync && success ==> seen == old(seen) + headers && (more <==> full || p.Work(seen) >= p.minWork)
      ensures success && more ==> phase == (if old(phase) == Presync && p.Work(seen) < p.minWork then Presync else Redownload)
      ensures old(phase) == Redownload ==> seen == old(seen)
      ensures old(phase) == Redownload && headers != [] ==>
                (success <==> AcceptedOk(p, seen, old(again) + headers)) && (Resends(p, seen, old(again) + headers) ==> success)
      ensures old(phase) == Redownload && success ==> again == old(again) + headers && (more <==> full && p.Work(again) < p.minWork)
      ensures old(phase) == Redownload && success ==>
                if p.Work(again) >= p.minWork then released == again else |released| == if |again| > p.bufferSize then |again| - p.bufferSize else 0
    {
      hide AcceptedOk, PresyncOk, RedownloadOk, BufferOk, ReleasedOk, Resends, p.Permitted, p.Bits, p.Work;
      success, more, ready := false, false, [];
      if headers == [] || phase == Final { return; }
      if phase == Presync {
        PresyncFacts(p, seen, currentHeight, currentWork, last, commitments);
        success := StoreCommitments(headers);
        if success && (full || phase == Redownload) { more := true; }
      } else {
        RedownloadFacts(p, seen, again, lastHeight, lastHash, redownloadWork, processAll, commitments);
        success := StoreAllRedownloaded(headers);
        if success {
          RedownloadFacts(p, seen, again, lastHeight, lastHash, redownloadWork, processAll, commitments);
          ready := PopReady();
          BufferBack(p, again, released, buffer, firstPrev);
          ReleasedFacts(p, again, released);
          if !(buffer == [] && processAll) && full { more := true; }
        }
      }
      if !(success && more) {
        Finalize();
      } else if phase == Presync {
        PresyncFacts(p, seen, currentHeight, currentWork, last, commitments);
      } else {
        RedownloadFacts(p, seen, again, lastHeight, lastHash, redownloadWork, processAll, commitments);
      }
    }
  }

  lemma {:induction false} PresyncFacts(p: Params, seen: seq<Header>, height: nat, work: nat, last: Header, commitments: seq<bool>)
    requires PresyncOk(p, seen, height, work, last, commitments)
    ensures p.Valid() && p.Permitted(seen) && |p.Bits(seen)| <= p.maxCommitments
    ensures height == p.startHeight + |seen| && work == p.Work(seen) && commitments == p.Bits(seen)
    ensures last.bits == p.BitsBefore(seen, |seen|) && p.hash(last) == p.HashBefore(seen, |seen|)
  {}

  lemma {:induction false} RedownloadFacts(p: Params, seen: seq<Header>, again: seq<Header>, height: nat, lastHash: Hash, work: nat, all: bool, commitments: seq<bool>)
    requires RedownloadOk(p, seen, again, height, lastHash, work, all, commitments)
    ensures p.Valid() && AcceptedOk(p, seen, again)
    ensures height == p.startHeight + |again| && lastHash == p.HashBefore(again, |again|) && work == p.Work(again)
    ensures all <==> again != [] && work >= p.minWork
    ensures |commitments| <= p.maxCommitments
  {}
}
