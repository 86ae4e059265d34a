/** Choosing the revocation list that decides whether a service certificate is let in. */
module ServiceCrl {
  import opened Wrappers

  const MAX_BYTES := 0x10_0000

  /** A parsed list. Whether its signature checks out is a matter of the issuer's key. */
  datatype Crl = Crl(
    rawIssuer: string, signedWith: int, thisUpdate: int, nextUpdate: int, number: Option<int>, revoked: seq<int>)

  datatype Issuer = Issuer(rawSubject: string, key: int)

  /** The leaf's serial number, its issuer, and the time of the handshake. */
  datatype Query = Query(leafSerial: int, issuer: Issuer, now: int)

  datatype Verdict = Authorized | Revoked | NotCurrent | NoCrlFromIssuer | NoChain | NotLoaded

  // ----- the file

  datatype Block = Block(crlType: bool, headers: bool, parsed: Option<Crl>)

  /** A CRL file: PEM blocks, and what is left once no further block is found. The whole file may itself be one DER list. */
  datatype File = File(size: nat, blocks: seq<Block>, tailBlank: bool, der: Option<Crl>)

  predicate GoodBlock(b: Block) { b.crlType && !b.headers && b.parsed.Some? }

  /** What loadServiceCRLs accepts: PEM blocks of the one type, headerless, all parsed, then nothing; or one DER list. */
  function Loaded(f: File): Option<seq<Crl>> {
    if f.size == 0 || f.size > MAX_BYTES then None
    else if f.blocks == [] then (if f.tailBlank || f.der.None? then None else Some([f.der.value]))
    else if f.tailBlank && forall i :: 0 <= i < |f.blocks| ==> GoodBlock(f.blocks[i]) then
      Some(seq(|f.blocks|, i requires 0 <= i < |f.blocks| => f.blocks[i].parsed.value))
    else None
  }

  /** loadServiceCRLs: each turn takes one block off the front of the data. */
  method Load(f: File) returns (r: Option<seq<Crl>>)
    ensures r == Loaded(f)
  {
    if f.size == 0 || f.size > MAX_BYTES { return None; }
    var result: seq<Crl> := [];
    var data := f.blocks;
    while data != [] || !f.tailBlank
      invariant |result| + |data| == |f.blocks| && data == f.blocks[|result|..]
      invariant forall i :: 0 <= i < |result| ==> GoodBlock(f.blocks[i]) && result[i] == f.blocks[i].parsed.value
      decreases |data|
    {
      if data == [] {
        if |result| == 0 && f.der.Some? { return Some([f.der.value]); }
        return None;
      }
      var block := data[0];
      assert block == f.blocks[|result|];
      if !block.crlType || block.headers { return None; }
      if block.parsed.None? { return None; }
      result := result + [block.parsed.value];
      data := data[1..];
    }
    if |result| == 0 { return None; }
    assert result == Loaded(f).value;
    return Some(result);
  }

  // ----- the selection

  predicate FromIssuer(q: Query, c: Crl) {
    c.rawIssuer == q.issuer.rawSubject && c.signedWith == q.issuer.key
  }

  predicate Candidate(q: Query, c: Crl) {
    FromIssuer(q, c) && c.thisUpdate <= q.now < c.nextUpdate
  }

  /** Later issue wins; at the same issue time a higher number, and any number over none. */
  predicate Beats(a: Crl, b: Crl) {
    || a.thisUpdate > b.thisUpdate
    || (a.thisUpdate == b.thisUpdate && a.number.Some? && (b.number.None? || a.number.value > b.number.value))
  }

  /** The list selected: a candidate no candidate beats, and the first in the file among those. */
  predicate Chosen(q: Query, crls: seq<Crl>, k: int) {
    && 0 <= k < |crls| && Candidate(q, crls[k])
    && (forall j :: 0 <= j < |crls| && Candidate(q, crls[j]) ==> !Beats(crls[j], crls[k]))
    && (forall j :: 0 <= j < k && Candidate(q, crls[j]) ==> Beats(crls[k], crls[j]))
  }

  function Decided(q: Query, c: Crl): Verdict {
    if q.leafSerial in c.revoked then Revoked else Authorized
  }

  predicate AnyCandidate(q: Query, crls: seq<Crl>) {
    exists j :: 0 <= j < |crls| && Candidate(q, crls[j])
  }

  predicate AnyFromIssuer(q: Query, crls: seq<Crl>) {
    exists j :: 0 <= j < |crls| && FromIssuer(q, crls[j])
  }

  ghost predicate DecidedByChosen(q: Query, crls: seq<Crl>, v: Verdict) {
    exists k :: Chosen(q, crls, k) && v == Decided(q, crls[k])
  }

  /** What verifyServiceRegistrationCRL answers, given a chain and the loaded lists. */
  ghost predicate Answers(q: Query, crls: seq<Crl>, v: Verdict) {
    if AnyCandidate(q, crls) then DecidedByChosen(q, crls, v)
    else if AnyFromIssuer(q, crls) then v == NotCurrent
    else v == NoCrlFromIssuer
  }

  /** The loop over the loaded lists. */
  method Select(q: Query, crls: seq<Crl>) returns (selected: Option<Crl>, matchedIssuer: bool, ghost at: nat)
    ensures matchedIssuer <==> AnyFromIssuer(q, crls)
    ensures selected.Some? <==> AnyCandidate(q, crls)
    ensures selected.Some? ==> Chosen(q, crls, at) && selected.value == crls[at]
  {
    selected, matchedIssuer, at := None, false, 0;
    for i := 0 to |crls|
      invariant matchedIssuer <==> exists j :: 0 <= j < i && FromIssuer(q, crls[j])
      invariant selected.None? ==> forall j :: 0 <= j < i ==> !Candidate(q, crls[j])
      invariant selected.Some? ==> at < i && selected.value == crls[at] && Chosen(q, crls[..i], at)
    {
      var crl := crls[i];
      assert crls[..i + 1] == crls[..i] + [crl];
      if crl.rawIssuer != q.issuer.rawSubject { continue; }
      if crl.signedWith != q.issuer.key { continue; }
      matchedIssuer := true;
      if q.now < crl.thisUpdate || !(q.now < crl.nextUpdate) { continue; }
      if selected.None? || crl.thisUpdate > selected.value.thisUpdate
        || (crl.thisUpdate == selected.value.thisUpdate && crl.number.Some?
            && (selected.value.number.None? || crl.number.value > selected.value.number.value))
      {
        selected := Some(crl);
        at := i;
      }
    }
    assert crls[..|crls|] == crls;
  }

  /** verifyServiceRegistrationCRL. No query stands for a connection without a verified chain of two. */
  method Verify(query: Option<Query>, file: File) returns (v: Verdict)
    ensures v == NoChain <==> query.None?
    ensures v == NotLoaded <==> query.Some? && Loaded(file).None?
    ensures query.Some? && Loaded(file).Some? ==> Answers(query.value, Loaded(file).value, v)
  {
    hide Loaded, Chosen, AnyCandidate, AnyFromIssuer;
    if query.None? { return NoChain; }
    var q := query.value;
    var loaded := Load(file);
    if loaded.None? { return NotLoaded; }
    var selected, matchedIssuer, at := Select(q, loaded.value);
    if selected.None? {
      return if matchedIssuer then NotCurrent else NoCrlFromIssuer;
    }
    v := Authorized;
    for i := 0 to |selected.value.revoked|
      invariant v == Authorized && q.leafSerial !in selected.value.revoked[..i]
    {
      if selected.value.revoked[i] == q.leafSerial {
        v := Revoked;
        break;
      }
    }
    assert v == Decided(q, loaded.value[at]);
  }

  // ----- order in the file

  lemma TheChosen(q: Query, crls: seq<Crl>, v: Verdict) returns (k: int)
    requires DecidedByChosen(q, crls, v)
    ensures 0 <= k < |crls| && Chosen(q, crls, k) && v == Decided(q, crls[k])
  {
    k :| Chosen(q, crls, k) && v == Decided(q, crls[k]);
  }

  lemma ChosenUnique(q: Query, crls: seq<Crl>, k: int, l: int)
    requires Chosen(q, crls, k) && Chosen(q, crls, l)
    ensures k == l
  {}

  /** There is at most one answer. */
  lemma AnswerUnique(q: Query, crls: seq<Crl>, v: Verdict, w: Verdict)
    requires Answers(q, crls, v) && Answers(q, crls, w)
    ensures v == w
  {
    hide Chosen, AnyCandidate, AnyFromIssuer, Decided;
    if AnyCandidate(q, crls) {
      var k := TheChosen(q, crls, v);
      var l := TheChosen(q, crls, w);
      ChosenUnique(q, crls, k, l);
    }
  }

  lemma {:induction false} SomeChosen(q: Query, crls: seq<Crl>)
    requires AnyCandidate(q, crls)
    ensures exists k :: Chosen(q, crls, k)
  {
    var n := |crls| - 1;
    var before := crls[..n];
    if AnyCandidate(q, before) {
      SomeChosen(q, before);
      var k :| Chosen(q, before, k);
      if Candidate(q, crls[n]) && Beats(crls[n], crls[k]) {
        assert Chosen(q, crls, n);
      } else {
        assert Chosen(q, crls, k);
      }
    } else {
      assert forall j :: 0 <= j < n ==> crls[j] == before[j];
      assert Chosen(q, crls, n);
    }
  }

  /** There always is one. */
  lemma AnswerExists(q: Query, crls: seq<Crl>)
    ensures exists v :: Answers(q, crls, v)
  {
    hide Chosen, AnyCandidate, AnyFromIssuer, Decided;
    if AnyCandidate(q, crls) {
      SomeChosen(q, crls);
      var k :| Chosen(q, crls, k);
      ChosenIsBest(q, crls, k);
      assert Answers(q, crls, Decided(q, crls[k]));
    } else if AnyFromIssuer(q, crls) {
      assert Answers(q, crls, NotCurrent);
    } else {
      assert Answers(q, crls, NoCrlFromIssuer);
    }
  }

  /** A candidate no other candidate beats. */
  ghost predicate Best(q: Query, crls: seq<Crl>, c: Crl) {
    c in crls && Candidate(q, c) && forall d :: d in crls && Candidate(q, d) ==> !Beats(d, c)
  }

  /** The best candidates all say the same about the leaf. */
  ghost predicate BestAgree(q: Query, crls: seq<Crl>) {
    forall c, d :: Best(q, crls, c) && Best(q, crls, d) ==> Decided(q, c) == Decided(q, d)
  }

  ghost predicate OrderFree(q: Query, crls: seq<Crl>) {
    forall other, v, w :: multiset(other) == multiset(crls) && Answers(q, crls, v) && Answers(q, other, w) ==> v == w
  }

  lemma SameElements(a: seq<Crl>, b: seq<Crl>)
    requires multiset(a) == multiset(b)
    ensures forall c :: c in a <==> c in b
  {
    forall c ensures c in a <==> c in b {
      assert c in a <==> c in multiset(a);
      assert c in b <==> c in multiset(b);
    }
  }

  lemma ChosenIsBest(q: Query, crls: seq<Crl>, k: int)
    requires Chosen(q, crls, k)
    ensures 0 <= k < |crls| && Best(q, crls, crls[k])
  {}

  lemma ReorderedAnswer(q: Query, crls: seq<Crl>, other: seq<Crl>, v: Verdict, w: Verdict)
    requires multiset(other) == multiset(crls) && BestAgree(q, crls) && Answers(q, crls, v) && Answers(q, other, w)
    ensures v == w
  {
    hide Chosen, Decided, AnyCandidate, AnyFromIssuer;
    SameElements(other, crls);
    SameQuestions(q, crls, other);
    if AnyCandidate(q, crls) {
      var k := TheChosen(q, crls, v);
      ChosenIsBest(q, crls, k);
      var l := TheChosen(q, other, w);
      ChosenIsBest(q, other, l);
      assert Best(q, crls, other[l]);
    }
  }

  lemma SameQuestions(q: Query, a: seq<Crl>, b: seq<Crl>)
    requires forall c :: c in a <==> c in b
    ensures AnyCandidate(q, a) == AnyCandidate(q, b) && AnyFromIssuer(q, a) == AnyFromIssuer(q, b)
  {
    assert forall j :: 0 <= j < |a| ==> a[j] in b;
    assert forall j :: 0 <= j < |b| ==> b[j] in a;
  }

  function MovedToFront(crls: seq<Crl>, k: nat): seq<Crl>
    requires k < |crls|
  {
    [crls[k]] + crls[..k] + crls[k + 1..]
  }

  lemma FrontIsChosen(q: Query, crls: seq<Crl>, k: nat)
    requires k < |crls| && Best(q, crls, crls[k])
    ensures var other := MovedToFront(crls, k); multiset(other) == multiset(crls) && Answers(q, other, Decided(q, crls[k]))
  {
    var other := MovedToFront(crls, k);
    assert crls == crls[..k] + [crls[k]] + crls[k + 1..];
    SameElements(other, crls);
    assert forall j :: 0 <= j < |other| ==> other[j] in crls;
    assert other[0] == crls[k];
    assert Chosen(q, other, 0);
  }

  /** The verdict survives every reordering of the file exactly when the best candidates agree about the leaf. */
  lemma OrderFreeExactly(q: Query, crls: seq<Crl>)
    ensures OrderFree(q, crls) <==> BestAgree(q, crls)
  {
    if BestAgree(q, crls) {
      forall other, v, w | multiset(other) == multiset(crls) && Answers(q, crls, v) && Answers(q, other, w) ensures v == w {
        ReorderedAnswer(q, crls, other, v, w);
      }
    }
    if OrderFree(q, crls) {
      AnswerExists(q, crls);
      var v :| Answers(q, crls, v);
      forall c, d | Best(q, crls, c) && Best(q, crls, d) ensures Decided(q, c) == Decided(q, d) {
        var i :| 0 <= i < |crls| && crls[i] == c;
        var j :| 0 <= j < |crls| && crls[j] == d;
        FrontIsChosen(q, crls, i);
        FrontIsChosen(q, crls, j);
        assert v == Decided(q, c) && v == Decided(q, d);
      }
    }
  }

  /** In particular when no two candidates share both issue time and number. */
  lemma NoTiesOrderFree(q: Query, crls: seq<Crl>)
    requires forall c, d :: (c in crls && d in crls && Candidate(q, c) && Candidate(q, d)
      && c.thisUpdate == d.thisUpdate && c.number == d.number) ==> c == d
    ensures OrderFree(q, crls)
  {
    forall c, d | Best(q, crls, c) && Best(q, crls, d) ensures Decided(q, c) == Decided(q, d) {
      assert !Beats(c, d) && !Beats(d, c);
      assert c.thisUpdate == d.thisUpdate && c.number == d.number;
    }
    OrderFreeExactly(q, crls);
  }
}
