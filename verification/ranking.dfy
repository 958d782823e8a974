/** Language-model re-ranking of the geo-filtered candidates: consecutive
    batches, one scoring reply per batch with an all-zero fallback, scores
    clamped to [0, 100], a stable sort descending on (llm_score,
    pinecone_score), and truncation to top_k. */
module Ranking {
  import opened Wrappers
  import opened Text
  import opened PyJson
  import opened Seqs
  import opened Schemes

  /** What one scoring call yields: the call failed, its text was not JSON,
      or the JSON value `json.loads` decoded from it. */
  datatype Reply = LlmFailed | NotJson | Parsed(value: Json)

  /** The sort key `(llm_score, pinecone_score)`. */
  datatype Key = Key(llm: int, pinecone: real)

  function KeyOf(r: Ranked): (res: Key) {
    Key(r.llmScore, r.pineconeScore)
  }

  /** Tuple comparison `a >= b` on sort keys. */
  predicate KeyGe(a: Key, b: Key) {
    a.llm > b.llm || (a.llm == b.llm && a.pinecone >= b.pinecone)
  }

  /** Ordered by non-increasing key. */
  predicate SortedDesc(rs: seq<Ranked>) {
    forall i, j :: 0 <= i < j < |rs| ==> KeyGe(KeyOf(rs[i]), KeyOf(rs[j]))
  }

  /** `min(max(n, 0), 100)`. */
  function Clamp(n: int): (r: int)
    ensures 0 <= r <= 100
    ensures 0 <= n <= 100 ==> r == n
    ensures n < 0 ==> r == 0
    ensures n > 100 ==> r == 100
  {
    if n < 0 then 0 else if n > 100 then 100 else n
  }

  // ---------------------------------------------------------------------------
  // Batching
  // ---------------------------------------------------------------------------

  /** `[s[i:i + n] for i in range(0, len(s), n)]`. */
  function Batches<T>(s: seq<T>, n: nat): (bs: seq<seq<T>>)
    requires n > 0
    decreases |s|
  {
    if |s| == 0 then [] else if |s| <= n then [s] else [s[..n]] + Batches(s[n..], n)
  }

  function Flatten<T>(bs: seq<seq<T>>): (r: seq<T>) {
    if |bs| == 0 then [] else bs[0] + Flatten(bs[1..])
  }

  /** Every candidate lies in exactly one batch: the batches, in order,
      concatenate back to the input; each is non-empty and at most `n` long,
      and all but the last hold exactly `n`. */
  lemma {:induction false} BatchesPartition<T>(s: seq<T>, n: nat)
    requires n > 0
    ensures Flatten(Batches(s, n)) == s
    ensures forall k :: 0 <= k < |Batches(s, n)| ==> 0 < |Batches(s, n)[k]| <= n
    ensures forall k :: 0 <= k < |Batches(s, n)| - 1 ==> |Batches(s, n)[k]| == n
    decreases |s|
  {
    var bs := Batches(s, n);
    if |s| == 0 {
    } else if |s| <= n {
      assert Flatten(bs) == s + [];
    } else {
      BatchesPartition(s[n..], n);
      var rest := Batches(s[n..], n);
      assert bs == [s[..n]] + rest;
      assert bs[1..] == rest;
      assert Flatten(bs) == s[..n] + Flatten(rest);
      assert s[..n] + s[n..] == s;
      forall k | 1 <= k < |bs| ensures bs[k] == rest[k - 1] {
      }
    }
  }

  // ---------------------------------------------------------------------------
  // Scoring one batch
  // ---------------------------------------------------------------------------

  /** The reply is unusable as a score list for a batch of `size` members:
      the call failed, the text was not JSON, the JSON is not a list, or the
      list has the wrong length. */
  predicate Unusable(reply: Reply, size: nat) {
    !reply.Parsed? || !reply.value.JArr? || |reply.value.items| != size
  }

  /** `int(x)` applied to each element in order; the first one that does not
      convert raises. */
  function IntsOf(xs: seq<Json>): (r: Result<seq<int>>)
    ensures r.Success? ==> |r.value| == |xs|
    ensures r.Success? ==> forall i :: 0 <= i < |xs| ==> IntOf(xs[i]) == Success(r.value[i])
    ensures r.Failure? <==> exists i :: 0 <= i < |xs| && IntOf(xs[i]).Failure?
  {
    if |xs| == 0 then Success([])
    else
      match IntOf(xs[0])
      case Failure(e) => Failure(e)
      case Success(n) =>
        match IntsOf(xs[1..])
        case Failure(e) => (assert exists i :: 0 <= i < |xs| && IntOf(xs[i]).Failure? by {
                              var i :| 0 <= i < |xs[1..]| && IntOf(xs[1..][i]).Failure?;
                              assert IntOf(xs[i + 1]).Failure?;
                            }
                            Failure(e))
        case Success(ns) => Success([n] + ns)
  }

  /** `[0] * n`. */
  function Zeros(n: nat): (z: seq<int>)
    ensures |z| == n
    ensures forall i :: 0 <= i < n ==> z[i] == 0
  {
    if n == 0 then [] else [0] + Zeros(n - 1)
  }

  /** The raw scores for one batch: all zeros when the reply is unusable,
      otherwise the reply's elements converted with `int()`. */
  function BatchScores(size: nat, reply: Reply): (r: Result<seq<int>>)
    ensures Unusable(reply, size) ==> r == Success(Zeros(size))
    ensures r.Success? ==> |r.value| == size
    ensures !Unusable(reply, size) ==> r == IntsOf(reply.value.items)
  {
    if Unusable(reply, size) then Success(Zeros(size)) else IntsOf(reply.value.items)
  }

  /** `{'id': c.id, 'llm_score': clamp(int(s)), 'pinecone_score': c.score, 'metadata': c.metadata}`. */
  function Attach(batch: seq<Candidate>, scores: seq<int>): (rs: seq<Ranked>)
    requires |scores| == |batch|
    ensures |rs| == |batch|
    ensures forall i :: 0 <= i < |batch| ==>
      rs[i] == Ranked(batch[i].id, Clamp(scores[i]), batch[i].score, batch[i].meta)
  {
    seq(|batch|, i requires 0 <= i < |batch| => Ranked(batch[i].id, Clamp(scores[i]), batch[i].score, batch[i].meta))
  }

  /** The result keeps candidate `c`'s id, similarity and metadata, with a
      score in [0, 100]. */
  predicate Keeps(x: Ranked, c: Candidate) {
    && x.id == c.id
    && x.pineconeScore == c.score
    && x.meta == c.meta
    && 0 <= x.llmScore <= 100
  }

  /** One pass of the batch loop: the batch's members with the reply's
      scores attached; a reply whose elements do not convert raises. */
  function ScoreBatch(batch: seq<Candidate>, reply: Reply): (r: Result<seq<Ranked>>)
    ensures r.Success? ==> |r.value| == |batch|
    ensures r.Success? ==> forall i :: 0 <= i < |batch| ==> Keeps(r.value[i], batch[i])
    ensures Unusable(reply, |batch|) ==> r == Success(Attach(batch, Zeros(|batch|)))
    ensures !Unusable(reply, |batch|) ==> (r.Failure? <==> IntsOf(reply.value.items).Failure?)
    ensures !Unusable(reply, |batch|) && r.Success? ==> forall i :: 0 <= i < |batch| ==>
      IntOf(reply.value.items[i]).Success? && r.value[i].llmScore == Clamp(IntOf(reply.value.items[i]).value)
  {
    var scores :- BatchScores(|batch|, reply);
    Success(Attach(batch, scores))
  }

  /** Scores the batches in order; `reply(b)` is the answer to the `b`-th
      scoring call. The first batch whose scores do not convert raises. */
  function ScoreBatches(bs: seq<seq<Candidate>>, reply: nat -> Reply, b: nat): (r: Result<seq<Ranked>>)
    decreases |bs|
  {
    if |bs| == 0 then Success([])
    else
      var part :- ScoreBatch(bs[0], reply(b));
      var rest :- ScoreBatches(bs[1..], reply, b + 1);
      Success(part + rest)
  }

  /** Scoring keeps every candidate in place: the `j`-th result carries the
      `j`-th candidate's id, similarity and metadata, with a score in [0, 100]. */
  lemma {:induction false} ScoreBatchesKeepsCandidates(bs: seq<seq<Candidate>>, reply: nat -> Reply, b: nat)
    requires ScoreBatches(bs, reply, b).Success?
    ensures |ScoreBatches(bs, reply, b).value| == |Flatten(bs)|
    ensures forall j :: 0 <= j < |ScoreBatches(bs, reply, b).value| ==>
      Keeps(ScoreBatches(bs, reply, b).value[j], Flatten(bs)[j])
    decreases |bs|
  {
    if |bs| > 0 {
      ScoreBatchesKeepsCandidates(bs[1..], reply, b + 1);
      var t := ScoreBatches(bs, reply, b).value;
      var head := ScoreBatch(bs[0], reply(b)).value;
      var rest := ScoreBatches(bs[1..], reply, b + 1).value;
      assert t == head + rest;
      assert Flatten(bs) == bs[0] + Flatten(bs[1..]);
      KeepsConcat(head, rest, bs[0], Flatten(bs[1..]));
    }
  }

  /** Positional `Keeps` carries over to concatenations. */
  lemma KeepsConcat(xs: seq<Ranked>, ys: seq<Ranked>, as_: seq<Candidate>, bs: seq<Candidate>)
    requires |xs| == |as_| && |ys| == |bs|
    requires forall j :: 0 <= j < |xs| ==> Keeps(xs[j], as_[j])
    requires forall j :: 0 <= j < |ys| ==> Keeps(ys[j], bs[j])
    ensures forall j :: 0 <= j < |xs| + |ys| ==> Keeps((xs + ys)[j], (as_ + bs)[j])
  {
    forall j | 0 <= j < |xs| + |ys| ensures Keeps((xs + ys)[j], (as_ + bs)[j]) {
      if j >= |xs| {
        assert (xs + ys)[j] == ys[j - |xs|] && (as_ + bs)[j] == bs[j - |xs|];
      }
    }
  }

  /** The scoring loop with each batch's results kept as a list of their
      own, before `results.extend` concatenates them. */
  function ScoredParts(bs: seq<seq<Candidate>>, reply: nat -> Reply, b: nat): (r: Result<seq<seq<Ranked>>>)
    decreases |bs|
    ensures r.Success? ==> |r.value| == |bs|
  {
    if |bs| == 0 then Success([])
    else
      var part :- ScoreBatch(bs[0], reply(b));
      var rest :- ScoredParts(bs[1..], reply, b + 1);
      Success([part] + rest)
  }

  /** Scoring succeeds exactly when every batch's part does, and yields the
      parts concatenated in order. */
  lemma {:induction false} ScoreBatchesFlatten(bs: seq<seq<Candidate>>, reply: nat -> Reply, b: nat)
    decreases |bs|
    ensures ScoreBatches(bs, reply, b).Success? <==> ScoredParts(bs, reply, b).Success?
    ensures ScoreBatches(bs, reply, b).Success? ==>
      ScoreBatches(bs, reply, b).value == Flatten(ScoredParts(bs, reply, b).value)
  {
    if |bs| > 0 {
      ScoreBatchesFlatten(bs[1..], reply, b + 1);
      if ScoredParts(bs, reply, b).Success? {
        var ps := ScoredParts(bs, reply, b).value;
        assert ps[1..] == ScoredParts(bs[1..], reply, b + 1).value;
      }
    }
  }

  /** One step of the loop: a successful run scored the first batch and then,
      successfully, the rest. */
  lemma ScoredPartsCons(bs: seq<seq<Candidate>>, reply: nat -> Reply, b: nat)
    requires |bs| > 0 && ScoredParts(bs, reply, b).Success?
    ensures ScoreBatch(bs[0], reply(b)).Success?
    ensures ScoredParts(bs[1..], reply, b + 1).Success?
    ensures ScoredParts(bs, reply, b).value
      == [ScoreBatch(bs[0], reply(b)).value] + ScoredParts(bs[1..], reply, b + 1).value
  {
  }

  /** The `k`-th part is batch `k` scored with the `k`-th reply. */
  lemma {:induction false} PartAt(bs: seq<seq<Candidate>>, reply: nat -> Reply, b: nat, k: nat)
    requires ScoredParts(bs, reply, b).Success?
    requires k < |bs|
    decreases k
    ensures ScoreBatch(bs[k], reply(b + k)) == Success(ScoredParts(bs, reply, b).value[k])
  {
    ScoredPartsCons(bs, reply, b);
    if k == 0 {
      assert reply(b + k) == reply(b);
    } else {
      PartAt(bs[1..], reply, b + 1, k - 1);
      assert bs[1..][k - 1] == bs[k];
      assert reply(b + 1 + (k - 1)) == reply(b + k);
      assert ScoredParts(bs, reply, b).value[k] == ScoredParts(bs[1..], reply, b + 1).value[k - 1];
    }
  }

  /** The `k`-th part sits in the concatenation right after the parts before it. */
  lemma {:induction false} FlattenSlice<T>(ps: seq<seq<T>>, k: nat)
    requires k < |ps|
    decreases k
    ensures |Flatten(ps[..k])| + |ps[k]| <= |Flatten(ps)|
    ensures Flatten(ps)[|Flatten(ps[..k])|..|Flatten(ps[..k])| + |ps[k]|] == ps[k]
  {
    var rest := Flatten(ps[1..]);
    assert Flatten(ps) == ps[0] + rest;
    if k == 0 {
      assert ps[..0] == [];
      assert Flatten(ps)[0..|ps[0]|] == ps[0];
    } else {
      FlattenSlice(ps[1..], k - 1);
      assert ps[1..][k - 1] == ps[k];
      FlattenPrefix(ps, k);
      var off := |Flatten(ps[1..][..k - 1])|;
      assert Flatten(ps)[|ps[0]| + off..|ps[0]| + off + |ps[k]|] == rest[off..off + |ps[k]|];
    }
  }

  /** Lists of pairwise equal lengths flatten to equal lengths. */
  lemma {:induction false} FlattenLength<T, U>(ps: seq<seq<T>>, qs: seq<seq<U>>)
    requires |ps| == |qs|
    requires forall k :: 0 <= k < |ps| ==> |ps[k]| == |qs[k]|
    decreases |ps|
    ensures |Flatten(ps)| == |Flatten(qs)|
  {
    if |ps| > 0 {
      FlattenLength(ps[1..], qs[1..]);
    }
  }

  /** Batch `k` produces the slice of the result that starts after the
      members of the batches before it: its members with the scores of the
      `k`-th reply attached. */
  lemma BatchSlice(bs: seq<seq<Candidate>>, reply: nat -> Reply, b: nat, k: nat)
    requires ScoreBatches(bs, reply, b).Success?
    requires k < |bs|
    ensures ScoreBatch(bs[k], reply(b + k)).Success?
    ensures |Flatten(bs[..k])| + |bs[k]| <= |ScoreBatches(bs, reply, b).value|
    ensures ScoreBatches(bs, reply, b).value[|Flatten(bs[..k])|..|Flatten(bs[..k])| + |bs[k]|]
      == ScoreBatch(bs[k], reply(b + k)).value
  {
    ScoreBatchesFlatten(bs, reply, b);
    var ps := ScoredParts(bs, reply, b).value;
    PartAt(bs, reply, b, k);
    FlattenSlice(ps, k);
    assert forall j :: 0 <= j < k ==> |ps[..k][j]| == |bs[..k][j]| by {
      forall j | 0 <= j < k ensures |ps[..k][j]| == |bs[..k][j]| {
        PartAt(bs, reply, b, j);
      }
    }
    FlattenLength(ps[..k], bs[..k]);
  }

  /** The batches before `k` flatten to the first batch followed by the
      batches after it that come before `k`. */
  lemma FlattenPrefix<T>(bs: seq<seq<T>>, k: nat)
    requires 0 < k <= |bs|
    ensures Flatten(bs[..k]) == bs[0] + Flatten(bs[1..][..k - 1])
  {
    assert bs[..k][1..] == bs[1..][..k - 1];
  }

  /** A batch whose reply is unusable scores 0 for every member: the slice of
      the result that batch `k` produced is its members with `llm_score` 0. */
  lemma UnusableBatchScoresZero(bs: seq<seq<Candidate>>, reply: nat -> Reply, b: nat, k: nat)
    requires ScoreBatches(bs, reply, b).Success?
    requires k < |bs| && Unusable(reply(b + k), |bs[k]|)
    ensures var t := ScoreBatches(bs, reply, b).value;
      var off := |Flatten(bs[..k])|;
      && off + |bs[k]| <= |t|
      && forall i :: 0 <= i < |bs[k]| ==>
           t[off + i] == Ranked(bs[k][i].id, 0, bs[k][i].score, bs[k][i].meta)
  {
    BatchSlice(bs, reply, b, k);
    var t := ScoreBatches(bs, reply, b).value;
    var off := |Flatten(bs[..k])|;
    var zeros := Zeros(|bs[k]|);
    assert ScoreBatch(bs[k], reply(b + k)) == Success(Attach(bs[k], zeros));
    assert t[off..off + |bs[k]|] == Attach(bs[k], zeros);
    ZeroScores(t, off, bs[k], zeros);
  }

  /** Zero scores attached in place give every member `llm_score` 0. */
  lemma ZeroScores(t: seq<Ranked>, off: nat, batch: seq<Candidate>, scores: seq<int>)
    requires |scores| == |batch| && off + |batch| <= |t|
    requires t[off..off + |batch|] == Attach(batch, scores)
    requires scores == Zeros(|batch|)
    ensures forall i :: 0 <= i < |batch| ==> t[off + i] == Ranked(batch[i].id, 0, batch[i].score, batch[i].meta)
  {
    forall i | 0 <= i < |batch|
      ensures t[off + i] == Ranked(batch[i].id, 0, batch[i].score, batch[i].meta)
    {
      assert t[off + i] == Attach(batch, scores)[i];
      assert scores[i] == 0;
    }
  }

  // ---------------------------------------------------------------------------
  // Stable descending sort
  // ---------------------------------------------------------------------------

  /** Places `x` before the first element whose key it is at least. */
  function Insert(x: Ranked, ys: seq<Ranked>): (r: seq<Ranked>) {
    if |ys| == 0 || KeyGe(KeyOf(x), KeyOf(ys[0])) then [x] + ys
    else [ys[0]] + Insert(x, ys[1..])
  }

  /** `sorted(rs, key=lambda x: (x['llm_score'], x['pinecone_score']), reverse=True)`. */
  function SortDesc(rs: seq<Ranked>): (r: seq<Ranked>) {
    if |rs| == 0 then [] else Insert(rs[0], SortDesc(rs[1..]))
  }

  function HasKey(k: Key): (r: Ranked -> bool) {
    r => KeyOf(r) == k
  }

  /** `KeyGe` is transitive. */
  lemma KeyGeTrans(a: Key, b: Key, c: Key)
    requires KeyGe(a, b) && KeyGe(b, c)
    ensures KeyGe(a, c)
  {
  }

  /** An element at least the first of a sorted list can go in front of it. */
  lemma ConsSorted(x: Ranked, ys: seq<Ranked>)
    requires SortedDesc(ys)
    requires |ys| == 0 || KeyGe(KeyOf(x), KeyOf(ys[0]))
    ensures SortedDesc([x] + ys)
  {
    var r := [x] + ys;
    forall i, j | 0 <= i < j < |r| ensures KeyGe(KeyOf(r[i]), KeyOf(r[j])) {
      assert r[j] == ys[j - 1];
      if i > 0 {
        assert r[i] == ys[i - 1];
      } else if j > 1 {
        KeyGeTrans(KeyOf(x), KeyOf(ys[0]), KeyOf(ys[j - 1]));
      }
    }
  }

  /** `Insert` adds exactly `x`. */
  lemma {:induction false} InsertPerm(x: Ranked, ys: seq<Ranked>)
    ensures multiset(Insert(x, ys)) == multiset(ys) + multiset{x}
  {
    if |ys| > 0 && !KeyGe(KeyOf(x), KeyOf(ys[0])) {
      InsertPerm(x, ys[1..]);
      assert ys == [ys[0]] + ys[1..];
    }
  }

  lemma {:induction false} InsertSorted(x: Ranked, ys: seq<Ranked>)
    requires SortedDesc(ys)
    ensures SortedDesc(Insert(x, ys))
    ensures multiset(Insert(x, ys)) == multiset(ys) + multiset{x}
  {
    InsertPerm(x, ys);
    if |ys| == 0 || KeyGe(KeyOf(x), KeyOf(ys[0])) {
      ConsSorted(x, ys);
    } else {
      var rest := ys[1..];
      assert SortedDesc(rest) by {
        forall i, j | 0 <= i < j < |rest| ensures KeyGe(KeyOf(rest[i]), KeyOf(rest[j])) {
          assert rest[i] == ys[i + 1] && rest[j] == ys[j + 1];
        }
      }
      InsertSorted(x, rest);
      InsertPerm(x, rest);
      var tail := Insert(x, rest);
      assert KeyGe(KeyOf(ys[0]), KeyOf(tail[0])) by {
        assert tail[0] in multiset(rest) + multiset{x};
        if tail[0] != x {
          var m :| 0 <= m < |rest| && rest[m] == tail[0];
          assert ys[m + 1] == tail[0];
        }
      }
      ConsSorted(ys[0], tail);
    }
  }

  /** `Insert` puts `x` ahead of the elements that share its key, so the
      elements of any one key keep the order they had. */
  lemma {:induction false} InsertStable(x: Ranked, ys: seq<Ranked>, k: Key)
    ensures Filter(HasKey(k), Insert(x, ys)) == Filter(HasKey(k), [x]) + Filter(HasKey(k), ys)
  {
    if |ys| == 0 || KeyGe(KeyOf(x), KeyOf(ys[0])) {
      FilterConcat(HasKey(k), [x], ys);
    } else {
      InsertStable(x, ys[1..], k);
      FilterConcat(HasKey(k), [ys[0]], Insert(x, ys[1..]));
      FilterConcat(HasKey(k), [ys[0]], ys[1..]);
      assert [ys[0]] + ys[1..] == ys;
      if KeyOf(x) == k {
        assert KeyOf(ys[0]) != k;
      }
    }
  }

  /** The sort is a permutation into non-increasing key order, and it is
      stable: for every key, the elements carrying it appear in their input order. */
  lemma {:induction false} SortDescCorrect(rs: seq<Ranked>)
    ensures SortedDesc(SortDesc(rs))
    ensures multiset(SortDesc(rs)) == multiset(rs)
    ensures |SortDesc(rs)| == |rs|
    ensures forall k :: Filter(HasKey(k), SortDesc(rs)) == Filter(HasKey(k), rs)
  {
    if |rs| > 0 {
      SortDescCorrect(rs[1..]);
      InsertSorted(rs[0], SortDesc(rs[1..]));
      assert rs == [rs[0]] + rs[1..];
      forall k ensures Filter(HasKey(k), SortDesc(rs)) == Filter(HasKey(k), rs) {
        InsertStable(rs[0], SortDesc(rs[1..]), k);
        FilterConcat(HasKey(k), [rs[0]], rs[1..]);
      }
    }
    assert |multiset(SortDesc(rs))| == |multiset(rs)|;
  }

  // ---------------------------------------------------------------------------
  // rerank_with_llm
  // ---------------------------------------------------------------------------

  /** `rerank_with_llm(schemes, user_details, top_k, batch_size)`. A zero
      batch size makes `range` raise; a negative one yields no batches. */
  function Rerank(cs: seq<Candidate>, topK: int, batchSize: int, reply: nat -> Reply): (r: Result<seq<Ranked>>)
    ensures batchSize == 0 ==> r.Failure?
    ensures batchSize < 0 ==> r == Success([])
  {
    if batchSize == 0 then Failure(ValueError)
    else if batchSize < 0 then Success([])
    else
      var scored :- ScoreBatches(Batches(cs, batchSize), reply, 0);
      Success(PySlice(SortDesc(scored), 0, topK))
  }

  /** What re-ranking promises when it returns: `min(top_k, len(schemes))`
      records, in non-increasing (llm_score, pinecone_score) order, each
      carrying some input candidate's id, similarity and metadata with a
      score in [0, 100]. */
  lemma RerankCorrect(cs: seq<Candidate>, topK: int, batchSize: int, reply: nat -> Reply)
    requires batchSize > 0
    requires Rerank(cs, topK, batchSize, reply).Success?
    ensures topK >= 0 ==> |Rerank(cs, topK, batchSize, reply).value| == (if topK < |cs| then topK else |cs|)
    ensures SortedDesc(Rerank(cs, topK, batchSize, reply).value)
    ensures forall x :: x in Rerank(cs, topK, batchSize, reply).value ==>
      exists j :: 0 <= j < |cs| && Keeps(x, cs[j])
    ensures var scored := ScoreBatches(Batches(cs, batchSize), reply, 0);
      var r := Rerank(cs, topK, batchSize, reply).value;
      && scored.Success? && |scored.value| == |cs|
      && (forall j :: 0 <= j < |cs| ==> Keeps(scored.value[j], cs[j]))
      && multiset(r) <= multiset(scored.value)
      && (topK >= |cs| ==> multiset(r) == multiset(scored.value))
      && forall x, y :: x in r && y in scored.value && y !in r ==> KeyGe(KeyOf(x), KeyOf(y))
  {
    var bs := Batches(cs, batchSize);
    BatchesPartition(cs, batchSize);
    var scored := ScoreBatches(bs, reply, 0).value;
    ScoreBatchesKeepsCandidates(bs, reply, 0);
    assert Rerank(cs, topK, batchSize, reply).value == PySlice(SortDesc(scored), 0, topK);
    SelectTop(cs, scored, topK);
  }

  /** Sorting scored candidates and keeping the first `top_k`: a sorted
      sub-multiset of the scored list whose members are each at least every
      member left out. */
  lemma SelectTop(cs: seq<Candidate>, scored: seq<Ranked>, topK: int)
    requires |scored| == |cs|
    requires forall j :: 0 <= j < |cs| ==> Keeps(scored[j], cs[j])
    ensures var r := PySlice(SortDesc(scored), 0, topK);
      && (topK >= 0 ==> |r| == (if topK < |cs| then topK else |cs|))
      && SortedDesc(r)
      && (forall x :: x in r ==> exists j :: 0 <= j < |cs| && Keeps(x, cs[j]))
      && multiset(r) <= multiset(scored)
      && (topK >= |cs| ==> multiset(r) == multiset(scored))
      && forall x, y :: x in r && y in scored && y !in r ==> KeyGe(KeyOf(x), KeyOf(y))
  {
    SortDescCorrect(scored);
    var sorted := SortDesc(scored);
    PrefixSlice(sorted, topK);
    var r := PySlice(sorted, 0, topK);
    assert r == sorted[..|r|];
    assert SortedDesc(r) by {
      forall i, j | 0 <= i < j < |r| ensures KeyGe(KeyOf(r[i]), KeyOf(r[j])) {
        assert r[i] == sorted[i] && r[j] == sorted[j];
      }
    }
    TopOfSorted(sorted, |r|);
    forall y | y in scored ensures y in sorted {
      assert y in multiset(scored);
    }
    forall x | x in r ensures exists j :: 0 <= j < |cs| && Keeps(x, cs[j]) {
      assert x in sorted;
      assert x in multiset(scored);
      var j :| 0 <= j < |scored| && scored[j] == x;
      assert Keeps(x, cs[j]);
    }
  }

  /** A prefix of a sorted list holds part of its elements, all of them at
      least every element left behind. */
  lemma TopOfSorted(sorted: seq<Ranked>, n: nat)
    requires SortedDesc(sorted) && n <= |sorted|
    ensures multiset(sorted[..n]) <= multiset(sorted)
    ensures n == |sorted| ==> multiset(sorted[..n]) == multiset(sorted)
    ensures forall x, y :: x in sorted[..n] && y in sorted && y !in sorted[..n] ==> KeyGe(KeyOf(x), KeyOf(y))
  {
    var top := sorted[..n];
    assert sorted == top + sorted[n..];
    assert multiset(sorted) == multiset(top) + multiset(sorted[n..]);
    forall x, y | x in top && y in sorted && y !in top ensures KeyGe(KeyOf(x), KeyOf(y)) {
      var i :| 0 <= i < n && top[i] == x;
      var m :| 0 <= m < |sorted| && sorted[m] == y;
    }
  }

  /** The all-zero fallback seen from the caller: when every scoring call
      fails, every returned record has `llm_score` 0, and the order is by
      similarity alone. */
  lemma RerankAllFailed(cs: seq<Candidate>, topK: int, batchSize: int, reply: nat -> Reply)
    requires batchSize > 0
    requires forall b :: reply(b) == LlmFailed
    ensures Rerank(cs, topK, batchSize, reply).Success?
    ensures forall x :: x in Rerank(cs, topK, batchSize, reply).value ==> x.llmScore == 0
  {
    var bs := Batches(cs, batchSize);
    AllFailedScoresZero(bs, reply, 0);
    var scored := ScoreBatches(bs, reply, 0).value;
    SortDescCorrect(scored);
    var sorted := SortDesc(scored);
    PrefixSlice(sorted, topK);
    forall x | x in PySlice(sorted, 0, topK) ensures x.llmScore == 0 {
      assert x in sorted;
      assert x in multiset(scored);
    }
  }

  lemma {:induction false} AllFailedScoresZero(bs: seq<seq<Candidate>>, reply: nat -> Reply, b: nat)
    requires forall c :: reply(c) == LlmFailed
    ensures ScoreBatches(bs, reply, b).Success?
    ensures forall x :: x in ScoreBatches(bs, reply, b).value ==> x.llmScore == 0
    decreases |bs|
  {
    if |bs| > 0 {
      AllFailedScoresZero(bs[1..], reply, b + 1);
      var head := ScoreBatch(bs[0], reply(b)).value;
      assert head == Attach(bs[0], Zeros(|bs[0]|));
      assert forall i :: 0 <= i < |head| ==> head[i].llmScore == 0;
    }
  }
}
