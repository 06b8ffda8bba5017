/**
 The active-company filter (leads_uploader/src/config.py, `_filter_companies`
 and `filter_companies`): leads are cut into batches of at most 1000, each
 batch's CNPJs are looked up in the reference index, and a lead is kept when
 its CNPJ is the CNPJ of a found reference record whose registration status
 (`situacao_cadastral`) is `ATIVA`.

 The reference index is a deterministic oracle: a map from identifier to the
 record stored under it. The thread pool is a sequential loop, because the
 program gathers the futures in submission order.
 */
module ActiveFilter {
  import opened Common
  import opened Frames
  import opened Chunking
  import opened Documents

  /** A reference record projected on the two fields the lookup asks for. */
  datatype RefRecord = RefRecord(cnpj: Cell, situacao: Cell)

  /** One entry of a multi-get answer. */
  datatype RefDoc = Found(source: RefRecord) | NotFound

  /** The reference index: identifier to stored record. */
  type ReferenceIndex = map<Cell, RefRecord>

  /** Most identifiers in one multi-get. */
  const LookupBatch: nat := 1000

  /** The registration status of an active company. */
  const Ativa: Cell := Str("ATIVA")

  predicate HasCnpj(d: Doc)
  {
    CnpjColumn in d.source
  }

  /** Every lead has a `cnpj` field (reading it raises `KeyError` otherwise). */
  predicate AllHaveCnpj(leads: seq<Doc>)
  {
    forall d | d in leads :: HasCnpj(d)
  }

  function CnpjOf(d: Doc): Cell
    requires HasCnpj(d)
  {
    d.source[CnpjColumn]
  }

  /** The identifiers a batch is looked up by: each lead's CNPJ, in lead order. */
  function Cnpjs(leads: seq<Doc>): (ids: seq<Cell>)
    requires AllHaveCnpj(leads)
    ensures |ids| == |leads|
    ensures forall i | 0 <= i < |leads| :: ids[i] == CnpjOf(leads[i])
  {
    seq(|leads|, i requires 0 <= i < |leads| => CnpjOf(leads[i]))
  }

  lemma CnpjsAppend(a: seq<Doc>, b: seq<Doc>)
    requires AllHaveCnpj(a) && AllHaveCnpj(b)
    ensures AllHaveCnpj(a + b) && Cnpjs(a + b) == Cnpjs(a) + Cnpjs(b)
  {
  }

  /** The multi-get: one answer per identifier, in order. */
  function MGet(ref: ReferenceIndex, ids: seq<Cell>): (docs: seq<RefDoc>)
    ensures |docs| == |ids|
  {
    seq(|ids|, i requires 0 <= i < |ids| => if ids[i] in ref then Found(ref[ids[i]]) else NotFound)
  }

  /** The CNPJs carried by the answers that were found and are `ATIVA`, in answer order. */
  function ActiveCnpjs(docs: seq<RefDoc>): seq<Cell>
  {
    if |docs| == 0 then []
    else
      var d := docs[0];
      (if d.Found? && d.source.situacao == Ativa then [d.source.cnpj] else []) + ActiveCnpjs(docs[1..])
  }

  /** A CNPJ is listed iff some answer is a found, active record carrying it. */
  lemma {:induction false} ActiveCnpjsMembers(docs: seq<RefDoc>, c: Cell)
    ensures c in ActiveCnpjs(docs) <==>
      exists j | 0 <= j < |docs| :: docs[j].Found? && docs[j].source.situacao == Ativa && docs[j].source.cnpj == c
    decreases |docs|
  {
    if |docs| > 0 {
      ActiveCnpjsMembers(docs[1..], c);
      if exists j | 0 <= j < |docs| :: docs[j].Found? && docs[j].source.situacao == Ativa && docs[j].source.cnpj == c {
        var j :| 0 <= j < |docs| && docs[j].Found? && docs[j].source.situacao == Ativa && docs[j].source.cnpj == c;
        if j > 0 {
          assert docs[1..][j - 1] == docs[j];
        }
      }
    }
  }

  /** Keep, in order, the leads whose CNPJ occurs in `listed`. */
  function KeepListed(leads: seq<Doc>, listed: seq<Cell>): seq<Doc>
    requires AllHaveCnpj(leads)
  {
    if |leads| == 0 then []
    else (if CnpjOf(leads[0]) in listed then [leads[0]] else []) + KeepListed(leads[1..], listed)
  }

  /** The filter keeps an order-preserving subsequence. */
  lemma {:induction false} KeepListedSubsequence(leads: seq<Doc>, listed: seq<Cell>)
    requires AllHaveCnpj(leads)
    ensures IsSubsequence(KeepListed(leads, listed), leads)
    decreases |leads|
  {
    if |leads| > 0 {
      var rest := KeepListed(leads[1..], listed);
      KeepListedSubsequence(leads[1..], listed);
      if CnpjOf(leads[0]) in listed {
        assert KeepListed(leads, listed) == [leads[0]] + rest;
        assert ([leads[0]] + rest)[1..] == rest;
      } else {
        assert KeepListed(leads, listed) == rest;
        SubsequenceWeaken(rest, leads[1..], leads[0]);
      }
    }
  }

  /** A lead with a listed CNPJ is kept as many times as it occurs; any other lead never. */
  lemma {:induction false} KeepListedCounts(leads: seq<Doc>, listed: seq<Cell>)
    requires AllHaveCnpj(leads)
    ensures forall d ::
      multiset(KeepListed(leads, listed))[d] == if d in leads && CnpjOf(d) in listed then multiset(leads)[d] else 0
    decreases |leads|
  {
    if |leads| > 0 {
      KeepListedCounts(leads[1..], listed);
      assert leads == [leads[0]] + leads[1..];
    }
  }

  /**
   The filter keeps an order-preserving subsequence: exactly the leads whose
   CNPJ is listed, each as many times as it occurs.
   */
  lemma KeepListedContents(leads: seq<Doc>, listed: seq<Cell>)
    requires AllHaveCnpj(leads)
    ensures IsSubsequence(KeepListed(leads, listed), leads)
    ensures forall d | d in leads ::
      multiset(KeepListed(leads, listed))[d] == if CnpjOf(d) in listed then multiset(leads)[d] else 0
    ensures forall d :: d in KeepListed(leads, listed) <==> d in leads && CnpjOf(d) in listed
  {
    KeepListedSubsequence(leads, listed);
    KeepListedCounts(leads, listed);
    forall d ensures d in KeepListed(leads, listed) <==> d in leads && CnpjOf(d) in listed {
      assert d in KeepListed(leads, listed) <==> multiset(KeepListed(leads, listed))[d] > 0;
    }
  }

  lemma {:induction false} KeepListedAppend(a: seq<Doc>, b: seq<Doc>, listed: seq<Cell>)
    requires AllHaveCnpj(a) && AllHaveCnpj(b)
    ensures AllHaveCnpj(a + b)
    ensures KeepListed(a + b, listed) == KeepListed(a, listed) + KeepListed(b, listed)
    decreases |a|
  {
    if |a| > 0 {
      assert (a + b)[1..] == a[1..] + b;
      KeepListedAppend(a[1..], b, listed);
    } else {
      assert a + b == b;
    }
  }

  /**
   `_filter_companies` on one batch. An empty batch never reaches it
   (`divide_list` yields no empty batch); the program would fail on one, since
   it prints the first answer of the multi-get.
   */
  function FilterChunk(ref: ReferenceIndex, leads: seq<Doc>): seq<Doc>
    requires |leads| > 0 && AllHaveCnpj(leads)
  {
    KeepListed(leads, ActiveCnpjs(MGet(ref, Cnpjs(leads))))
  }

  /** The record stored under `id` is found, active, and carries CNPJ `c`. */
  predicate Vouches(ref: ReferenceIndex, id: Cell, c: Cell)
  {
    id in ref && ref[id].situacao == Ativa && ref[id].cnpj == c
  }

  /** Some lead of the batch looks up a record that vouches for `c`. */
  predicate VouchedInBatch(ref: ReferenceIndex, leads: seq<Doc>, c: Cell)
    requires AllHaveCnpj(leads)
  {
    exists j | 0 <= j < |leads| :: Vouches(ref, CnpjOf(leads[j]), c)
  }

  lemma ListedIffVouched(ref: ReferenceIndex, leads: seq<Doc>, c: Cell)
    requires AllHaveCnpj(leads)
    ensures c in ActiveCnpjs(MGet(ref, Cnpjs(leads))) <==> VouchedInBatch(ref, leads, c)
  {
    var ids := Cnpjs(leads);
    var docs := MGet(ref, ids);
    ActiveCnpjsMembers(docs, c);
    if c in ActiveCnpjs(docs) {
      var j :| 0 <= j < |docs| && docs[j].Found? && docs[j].source.situacao == Ativa && docs[j].source.cnpj == c;
      assert Vouches(ref, CnpjOf(leads[j]), c);
    }
    if VouchedInBatch(ref, leads, c) {
      var j :| 0 <= j < |leads| && Vouches(ref, CnpjOf(leads[j]), c);
      assert docs[j] == Found(ref[ids[j]]);
    }
  }

  /**
   A lead survives its batch iff its CNPJ is vouched for by the record found
   for some lead of the same batch; the survivors keep their order and every
   duplicate.
   */
  lemma FilterChunkContents(ref: ReferenceIndex, leads: seq<Doc>)
    requires |leads| > 0 && AllHaveCnpj(leads)
    ensures IsSubsequence(FilterChunk(ref, leads), leads)
    ensures forall d :: d in FilterChunk(ref, leads) <==> d in leads && VouchedInBatch(ref, leads, CnpjOf(d))
    ensures forall d | d in leads ::
      multiset(FilterChunk(ref, leads))[d] == if VouchedInBatch(ref, leads, CnpjOf(d)) then multiset(leads)[d] else 0
  {
    var listed := ActiveCnpjs(MGet(ref, Cnpjs(leads)));
    KeepListedContents(leads, listed);
    forall d | d in leads
      ensures CnpjOf(d) in listed <==> VouchedInBatch(ref, leads, CnpjOf(d))
    {
      ListedIffVouched(ref, leads, CnpjOf(d));
    }
  }

  /** The reference stores every record under its own CNPJ. */
  ghost predicate Consistent(ref: ReferenceIndex)
  {
    forall c | c in ref :: ref[c].cnpj == c
  }

  /** The lookup's meaning for one CNPJ: a record is found and it is active. */
  predicate IsActive(ref: ReferenceIndex, c: Cell)
  {
    c in ref && ref[c].situacao == Ativa
  }

  /** Reference filter, without batches or multi-gets: keep the leads whose own CNPJ is active. */
  function KeepActive(ref: ReferenceIndex, leads: seq<Doc>): seq<Doc>
    requires AllHaveCnpj(leads)
  {
    if |leads| == 0 then []
    else (if IsActive(ref, CnpjOf(leads[0])) then [leads[0]] else []) + KeepActive(ref, leads[1..])
  }

  lemma {:induction false} KeepActiveAppend(ref: ReferenceIndex, a: seq<Doc>, b: seq<Doc>)
    requires AllHaveCnpj(a) && AllHaveCnpj(b)
    ensures AllHaveCnpj(a + b)
    ensures KeepActive(ref, a + b) == KeepActive(ref, a) + KeepActive(ref, b)
    decreases |a|
  {
    if |a| > 0 {
      assert (a + b)[1..] == a[1..] + b;
      KeepActiveAppend(ref, a[1..], b);
    } else {
      assert a + b == b;
    }
  }

  /** Filtering on a list that agrees with "is active" on every lead is the reference filter. */
  lemma {:induction false} KeepListedIsKeepActive(ref: ReferenceIndex, leads: seq<Doc>, listed: seq<Cell>)
    requires AllHaveCnpj(leads)
    requires forall d | d in leads :: CnpjOf(d) in listed <==> IsActive(ref, CnpjOf(d))
    ensures KeepListed(leads, listed) == KeepActive(ref, leads)
    decreases |leads|
  {
    if |leads| > 0 {
      KeepListedIsKeepActive(ref, leads[1..], listed);
    }
  }

  /**
   With a consistent reference, a batch keeps exactly its leads whose own CNPJ
   is found and active: identifiers that are not found are excluded, not errors.
   */
  lemma FilterChunkIsKeepActive(ref: ReferenceIndex, leads: seq<Doc>)
    requires |leads| > 0 && AllHaveCnpj(leads) && Consistent(ref)
    ensures FilterChunk(ref, leads) == KeepActive(ref, leads)
  {
    var listed := ActiveCnpjs(MGet(ref, Cnpjs(leads)));
    forall d | d in leads
      ensures CnpjOf(d) in listed <==> IsActive(ref, CnpjOf(d))
    {
      var c := CnpjOf(d);
      ListedIffVouched(ref, leads, c);
      var i :| 0 <= i < |leads| && leads[i] == d;
      if IsActive(ref, c) {
        assert Vouches(ref, CnpjOf(leads[i]), c);
      }
    }
    KeepListedIsKeepActive(ref, leads, listed);
  }

  /**
   `filter_companies`: batches of at most 1000 leads, one multi-get per batch
   (`lookups` holds the identifier lists sent), and the per-batch results
   concatenated in submission order.
   */
  method FilterCompanies(ref: ReferenceIndex, leads: seq<Doc>) returns (results: seq<Doc>, lookups: seq<seq<Cell>>)
    requires AllHaveCnpj(leads)
    ensures IsSubsequence(results, leads)
    ensures forall k | 0 <= k < |lookups| :: 0 < |lookups[k]| <= LookupBatch
    ensures Flatten(lookups) == Cnpjs(leads)
    ensures Consistent(ref) ==> results == KeepActive(ref, leads)
    ensures Consistent(ref) && |leads| > 0 ==> results == FilterChunk(ref, leads)
    ensures |leads| == 0 ==> results == [] && lookups == []
    ensures Batchable(Chunks(leads, LookupBatch)) && results == PerBatch(ref, Chunks(leads, LookupBatch))
  {
    var matrix := DivideList(leads, LookupBatch);
    results := [];
    lookups := [];
    var k := 0;
    while k < |matrix|
      invariant 0 <= k <= |matrix|
      invariant Gathered(ref, matrix[..k], results, lookups)
    {
      var chunk := matrix[k];
      BatchHasCnpjs(matrix, k, leads);
      BatchStep(ref, matrix[..k], chunk, results, lookups);
      assert matrix[..k + 1] == matrix[..k] + [chunk];
      lookups := lookups + [Cnpjs(chunk)];
      results := results + FilterChunk(ref, chunk);
      k := k + 1;
    }
    assert matrix[..k] == matrix;
    if Consistent(ref) && |leads| > 0 {
      FilterChunkIsKeepActive(ref, leads);
    }
  }

  /** Every batch is non-empty and its leads have a `cnpj`: each can be filtered. */
  predicate Batchable(batches: seq<seq<Doc>>)
  {
    forall k | 0 <= k < |batches| :: |batches[k]| > 0 && AllHaveCnpj(batches[k])
  }

  /** The batches filtered one by one, results concatenated in batch order. */
  function PerBatch(ref: ReferenceIndex, batches: seq<seq<Doc>>): seq<Doc>
    requires Batchable(batches)
    decreases |batches|
  {
    if |batches| == 0 then []
    else PerBatch(ref, batches[..|batches| - 1]) + FilterChunk(ref, batches[|batches| - 1])
  }

  /** A batch cut from leads that all have a `cnpj` holds only such leads. */
  lemma BatchHasCnpjs(matrix: seq<seq<Doc>>, k: nat, leads: seq<Doc>)
    requires k < |matrix| && Flatten(matrix) == leads && AllHaveCnpj(leads)
    ensures AllHaveCnpj(matrix[k])
  {
    forall d | d in matrix[k] ensures HasCnpj(d) {
      FlattenMember(matrix, k, d);
    }
  }

  /**
   The gathering loop's invariant after the batches `done`: the results are
   those batches filtered one by one, a subsequence of their leads (the
   reference filter's result when the reference is consistent), and one
   bounded lookup was made per batch.
   */
  ghost predicate Gathered(ref: ReferenceIndex, done: seq<seq<Doc>>, results: seq<Doc>, lookups: seq<seq<Cell>>)
  {
    && AllHaveCnpj(Flatten(done))
    && Batchable(done)
    && results == PerBatch(ref, done)
    && IsSubsequence(results, Flatten(done))
    && (Consistent(ref) ==> results == KeepActive(ref, Flatten(done)))
    && Flatten(lookups) == Cnpjs(Flatten(done))
    && forall j | 0 <= j < |lookups| :: 0 < |lookups[j]| <= LookupBatch
  }

  /** One iteration of the gathering loop keeps its invariant. */
  lemma BatchStep(ref: ReferenceIndex, done: seq<seq<Doc>>, chunk: seq<Doc>, results: seq<Doc>, lookups: seq<seq<Cell>>)
    requires Gathered(ref, done, results, lookups)
    requires 0 < |chunk| <= LookupBatch && AllHaveCnpj(chunk)
    ensures Gathered(ref, done + [chunk], results + FilterChunk(ref, chunk), lookups + [Cnpjs(chunk)])
  {
    var before := Flatten(done);
    var kept := FilterChunk(ref, chunk);
    assert Flatten(done + [chunk]) == before + chunk by {
      FlattenAppend(done, [chunk]);
      FlattenSingle(chunk);
    }
    CnpjsAppend(before, chunk);
    assert Flatten(lookups + [Cnpjs(chunk)]) == Flatten(lookups) + Cnpjs(chunk) by {
      FlattenAppend(lookups, [Cnpjs(chunk)]);
      FlattenSingle(Cnpjs(chunk));
    }
    assert IsSubsequence(results + kept, before + chunk) by {
      FilterChunkContents(ref, chunk);
      SubsequenceAppend(results, before, kept, chunk);
    }
    assert (done + [chunk])[..|done|] == done;
    if Consistent(ref) {
      KeepActiveAppend(ref, before, chunk);
      FilterChunkIsKeepActive(ref, chunk);
    }
  }

  /**
   A lead whose CNPJ is active is kept and an inactive one dropped: two leads
   with identifiers ending in 111 and 222, of which only 111 is `ATIVA`.
   */
  lemma ActiveExample()
    ensures var a := Str("00000000000111");
      var b := Str("00000000000222");
      var ref := map[a := RefRecord(a, Ativa), b := RefRecord(b, Str("BAIXADA"))];
      var la := Doc("acme-leads", map[CnpjColumn := a]);
      var lb := Doc("acme-leads", map[CnpjColumn := b]);
      FilterChunk(ref, [la, lb]) == [la]
  {
    var a := Str("00000000000111");
    var b := Str("00000000000222");
    var ref := map[a := RefRecord(a, Ativa), b := RefRecord(b, Str("BAIXADA"))];
    var la := Doc("acme-leads", map[CnpjColumn := a]);
    var lb := Doc("acme-leads", map[CnpjColumn := b]);
    assert Consistent(ref);
    FilterChunkIsKeepActive(ref, [la, lb]);
    assert AllHaveCnpj([lb]);
    assert [la, lb][1..] == [lb];
    assert KeepActive(ref, [lb]) == [] by {
      assert !IsActive(ref, CnpjOf(lb));
      assert [lb][1..] == [];
    }
    assert IsActive(ref, CnpjOf(la));
  }
}
