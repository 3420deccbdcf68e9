/**
 * The similarity index over the knowledge-base chunks: one entry per chunk,
 * a search that keeps the entries of the allowed HMOs, ranks them by score
 * with a stable descending sort and keeps the first top_k, and the join of
 * the snippets into the context block of the prompt.
 *
 * The embedding client and the similarity of two embeddings (normalisation
 * and dot product in float32) are opaque functions given to the retriever.
 */
module KbSearch {
  import opened Text
  import opened DataLoader

  /** An embedding vector, as the client returns it. */
  type Vector = seq<real>

  /** One index entry: the chunk's hmo and text, and the chunk's embedding. */
  datatype Entry = Entry(hmo: string, text: string, vec: Vector)

  /** The entry built for one chunk. */
  function EntryOf(c: Chunk, embed: string -> Vector): Entry {
    Entry(c.hmo, c.text, embed(c.text))
  }

  /** The index the constructor builds, entry by entry, in chunk order. */
  function IndexOf(chunks: seq<Chunk>, embed: string -> Vector): (r: seq<Entry>)
    ensures |r| == |chunks|
  {
    if chunks == [] then []
    else IndexOf(chunks[..|chunks| - 1], embed) + [EntryOf(chunks[|chunks| - 1], embed)]
  }

  /** Entry i carries the hmo, the text and the embedding of chunk i. */
  lemma {:induction false} IndexOfChunks(chunks: seq<Chunk>, embed: string -> Vector)
    ensures forall i :: 0 <= i < |chunks| ==>
      && IndexOf(chunks, embed)[i].hmo == chunks[i].hmo
      && IndexOf(chunks, embed)[i].text == chunks[i].text
      && IndexOf(chunks, embed)[i].vec == embed(chunks[i].text)
  {
    if chunks != [] {
      var init := chunks[..|chunks| - 1];
      IndexOfChunks(init, embed);
      assert forall i :: 0 <= i < |init| ==> init[i] == chunks[i];
    }
  }

  /** A scored candidate: the entry's text, its score against the query, and its position in the index. */
  datatype Scored = Scored(text: string, score: real, pos: nat)

  /** The comprehension over the index: the entries whose hmo is allowed, scored, in index order. */
  function Candidates(index: seq<Entry>, allowed: seq<string>, query: Vector, score: (Vector, Vector) -> real): (r: seq<Scored>)
    ensures forall k :: 0 <= k < |r| ==>
      && r[k].pos < |index|
      && index[r[k].pos].hmo in allowed
      && r[k].text == index[r[k].pos].text
      && r[k].score == score(query, index[r[k].pos].vec)
    ensures forall k, m :: 0 <= k < m < |r| ==> r[k].pos < r[m].pos
  {
    if index == [] then []
    else
      var n := |index| - 1;
      Candidates(index[..n], allowed, query, score)
        + (if index[n].hmo in allowed then [Scored(index[n].text, score(query, index[n].vec), n)] else [])
  }

  /** Every entry of an allowed HMO is a candidate. */
  lemma {:induction false} CandidatesComplete(index: seq<Entry>, allowed: seq<string>, query: Vector, score: (Vector, Vector) -> real, p: nat)
    requires p < |index| && index[p].hmo in allowed
    ensures exists k :: 0 <= k < |Candidates(index, allowed, query, score)| && Candidates(index, allowed, query, score)[k].pos == p
  {
    var n := |index| - 1;
    var c := Candidates(index, allowed, query, score);
    if p == n {
      assert c[|c| - 1].pos == p;
    } else {
      var init := index[..n];
      assert init[p] == index[p];
      CandidatesComplete(init, allowed, query, score, p);
      var k :| 0 <= k < |Candidates(init, allowed, query, score)| && Candidates(init, allowed, query, score)[k].pos == p;
      assert c[k] == Candidates(init, allowed, query, score)[k];
    }
  }

  /** With no entry of an allowed HMO there is no candidate. */
  lemma {:induction false} NoCandidates(index: seq<Entry>, allowed: seq<string>, query: Vector, score: (Vector, Vector) -> real)
    requires forall p :: 0 <= p < |index| ==> index[p].hmo !in allowed
    ensures Candidates(index, allowed, query, score) == []
  {
    if index != [] {
      NoCandidates(index[..|index| - 1], allowed, query, score);
    }
  }

  /**
   * list.sort(key=score, reverse=True): a stable sort into descending score
   * order, written as an insertion sort that places each new element after
   * every element whose score is not smaller.
   */
  function Insert(s: seq<Scored>, x: Scored): (r: seq<Scored>)
    ensures |r| == |s| + 1
    ensures multiset(r) == multiset(s) + multiset{x}
  {
    if s == [] || s[0].score < x.score then [x] + s
    else
      assert s == [s[0]] + s[1..];
      [s[0]] + Insert(s[1..], x)
  }

  function Sort(c: seq<Scored>): (r: seq<Scored>)
    ensures |r| == |c|
  {
    if c == [] then [] else Insert(Sort(c[..|c| - 1]), c[|c| - 1])
  }

  /** The sort only reorders: the result is a permutation of its input. */
  lemma {:induction false} SortPermutation(c: seq<Scored>)
    ensures multiset(Sort(c)) == multiset(c)
  {
    if c != [] {
      var n := |c| - 1;
      SortPermutation(c[..n]);
      assert c == c[..n] + [c[n]];
    }
  }

  /**
   * Descending by score, and equal scores in increasing index position:
   * the order a stable reverse sort gives when its input is in index order.
   */
  predicate Ranked(s: seq<Scored>) {
    forall i, j :: 0 <= i < j < |s| ==>
      s[i].score > s[j].score || (s[i].score == s[j].score && s[i].pos < s[j].pos)
  }

  /** A head that ranks before every element of a ranked tail keeps the list ranked. */
  lemma RankedCons(a: Scored, t: seq<Scored>)
    requires Ranked(t)
    requires forall j :: 0 <= j < |t| ==> a.score > t[j].score || (a.score == t[j].score && a.pos < t[j].pos)
    ensures Ranked([a] + t)
  {
    var r := [a] + t;
    forall i, j | 0 <= i < j < |r|
      ensures r[i].score > r[j].score || (r[i].score == r[j].score && r[i].pos < r[j].pos)
    {
      if i > 0 {
        assert r[i] == t[i - 1] && r[j] == t[j - 1];
      }
    }
  }

  /** Every element of an insertion is the inserted element or one of the list's. */
  lemma InsertFrom(s: seq<Scored>, x: Scored, k: nat)
    requires k < |Insert(s, x)|
    ensures Insert(s, x)[k] == x || exists m :: 0 <= m < |s| && s[m] == Insert(s, x)[k]
  {
    var y := Insert(s, x)[k];
    assert y in multiset(Insert(s, x));
    assert y in multiset(s) + multiset{x};
    if y != x {
      assert y in s;
    }
  }

  lemma {:induction false} InsertRanked(s: seq<Scored>, x: Scored)
    requires Ranked(s)
    requires forall i :: 0 <= i < |s| ==> s[i].pos < x.pos
    ensures Ranked(Insert(s, x))
  {
    if s != [] && s[0].score >= x.score {
      var tail := s[1..];
      assert forall i :: 0 <= i < |tail| ==> tail[i] == s[i + 1];
      InsertRanked(tail, x);
      var t := Insert(tail, x);
      forall j | 0 <= j < |t|
        ensures s[0].score > t[j].score || (s[0].score == t[j].score && s[0].pos < t[j].pos)
      {
        InsertFrom(tail, x, j);
        if t[j] != x {
          var m :| 0 <= m < |tail| && tail[m] == t[j];
          assert s[m + 1] == t[j];
        }
      }
      RankedCons(s[0], t);
    }
  }

  /** Sorting candidates that are in index order ranks them, ties kept in index order. */
  lemma {:induction false} SortRanked(c: seq<Scored>)
    requires forall k, m :: 0 <= k < m < |c| ==> c[k].pos < c[m].pos
    ensures Ranked(Sort(c))
  {
    if c != [] {
      var n := |c| - 1;
      SortRanked(c[..n]);
      SortPermutation(c[..n]);
      var s := Sort(c[..n]);
      forall i | 0 <= i < |s|
        ensures s[i].pos < c[n].pos
      {
        assert s[i] in multiset(c[..n]);
        var m :| 0 <= m < n && c[..n][m] == s[i];
      }
      InsertRanked(s, c[n]);
    }
  }

  /** The slice s[:k] with Python's meaning of a negative bound. */
  function Take<T>(s: seq<T>, k: int): (r: seq<T>)
    ensures r <= s
    ensures 0 <= k ==> |r| == if k < |s| then k else |s|
    ensures k < 0 ==> |r| == if |s| + k < 0 then 0 else |s| + k
  {
    if 0 <= k then (if k < |s| then s[..k] else s)
    else if |s| + k < 0 then []
    else s[..|s| + k]
  }

  function Texts(s: seq<Scored>): (r: seq<string>)
    ensures |r| == |s| && forall i :: 0 <= i < |s| ==> r[i] == s[i].text
  {
    seq(|s|, i requires 0 <= i < |s| => s[i].text)
  }

  /** The ranked candidates search keeps. */
  function TopScored(index: seq<Entry>, allowed: seq<string>, query: Vector, score: (Vector, Vector) -> real, topK: int): seq<Scored> {
    Take(Sort(Candidates(index, allowed, query, score)), topK)
  }

  /** A prefix of a ranked list is ranked, and nothing after it scores higher than anything in it. */
  lemma TakeRanked(s: seq<Scored>, k: int)
    requires Ranked(s)
    ensures Ranked(Take(s, k))
    ensures forall x, t :: (x in s && x !in Take(s, k) && t in Take(s, k)) ==> t.score >= x.score
  {
    var top := Take(s, k);
    forall x, t | x in s && x !in top && t in top
      ensures t.score >= x.score
    {
      var m :| 0 <= m < |s| && s[m] == x;
      var i :| 0 <= i < |top| && top[i] == t;
      assert s[i] == t;
      if m < |top| {
        assert false;
      }
    }
  }

  /** Whatever a prefix of a permutation of c holds is in c. */
  lemma TakeFrom(c: seq<Scored>, s: seq<Scored>, k: int)
    requires multiset(s) == multiset(c)
    ensures forall t :: t in Take(s, k) ==> t in c
  {
    forall t | t in Take(s, k)
      ensures t in c
    {
      assert t in multiset(s);
    }
  }

  /**
   * What is kept is the best of the candidates, in rank order: every
   * candidate left out scores no higher than anything kept.
   */
  lemma TopIsBest(index: seq<Entry>, allowed: seq<string>, query: Vector, score: (Vector, Vector) -> real, topK: int)
    ensures Ranked(TopScored(index, allowed, query, score, topK))
    ensures forall x, t :: (x in Candidates(index, allowed, query, score) && x !in TopScored(index, allowed, query, score, topK)
      && t in TopScored(index, allowed, query, score, topK)) ==> t.score >= x.score
  {
    var c := Candidates(index, allowed, query, score);
    SortRanked(c);
    SortPermutation(c);
    TakeRanked(Sort(c), topK);
    forall x | x in c
      ensures x in Sort(c)
    {
      assert x in multiset(Sort(c));
    }
  }

  /**
   * The texts of the candidates, ranked, cut at top_k: at most top_k of
   * them (for a non-negative top_k), each the text of an entry of an allowed
   * HMO, and none at all when no entry is allowed.
   */
  lemma SearchResults(index: seq<Entry>, allowed: seq<string>, query: Vector, score: (Vector, Vector) -> real, topK: int)
    ensures 0 <= topK ==> |Texts(TopScored(index, allowed, query, score, topK))| <= topK
    ensures forall i :: 0 <= i < |Texts(TopScored(index, allowed, query, score, topK))| ==>
      exists p :: 0 <= p < |index| && index[p].hmo in allowed
        && Texts(TopScored(index, allowed, query, score, topK))[i] == index[p].text
    ensures (forall p :: 0 <= p < |index| ==> index[p].hmo !in allowed) ==> Texts(TopScored(index, allowed, query, score, topK)) == []
  {
    var c := Candidates(index, allowed, query, score);
    var top := TopScored(index, allowed, query, score, topK);
    SortPermutation(c);
    TakeFrom(c, Sort(c), topK);
    forall i | 0 <= i < |top|
      ensures exists p :: 0 <= p < |index| && index[p].hmo in allowed && top[i].text == index[p].text
    {
      assert top[i] in c;
      var k :| 0 <= k < |c| && c[k] == top[i];
      var p := c[k].pos;
      assert index[p].hmo in allowed && top[i].text == index[p].text;
    }
    if forall p :: 0 <= p < |index| ==> index[p].hmo !in allowed {
      NoCandidates(index, allowed, query, score);
    }
  }

  /** The retriever: the embedding client, the number of results, and the index. */
  class EmbeddingRetriever {
    const embed: string -> Vector
    const score: (Vector, Vector) -> real
    const topK: int
    var index: seq<Entry>

    /** Builds the index once, one entry per chunk of the knowledge base, in chunk order. */
    constructor (kb: ChunkedKnowledgeBase, embed: string -> Vector, score: (Vector, Vector) -> real, topK: int := 3)
      ensures this.embed == embed && this.score == score && this.topK == topK
      ensures index == IndexOf(kb.chunks, embed)
    {
      this.embed := embed;
      this.score := score;
      this.topK := topK;
      var chunks := kb.chunks;
      var built := [];
      var i := 0;
      while i < |chunks|
        invariant 0 <= i <= |chunks|
        invariant built == IndexOf(chunks[..i], embed)
      {
        var c := chunks[i];
        built := built + [Entry(c.hmo, c.text, embed(c.text))];
        assert chunks[..i + 1][..i] == chunks[..i];
        i := i + 1;
      }
      assert chunks[..i] == chunks;
      index := built;
    }

    /** search(allowed_hmos, query): the texts of the best top_k entries of the allowed HMOs. */
    method Search(allowed: seq<string>, query: string) returns (r: seq<string>)
      ensures r == Texts(TopScored(index, allowed, embed(query), score, topK))
      ensures 0 <= topK ==> |r| <= topK
      ensures forall i :: 0 <= i < |r| ==> exists p :: 0 <= p < |index| && index[p].hmo in allowed && r[i] == index[p].text
      ensures (forall p :: 0 <= p < |index| ==> index[p].hmo !in allowed) ==> r == []
    {
      var q := embed(query);
      var scored := Candidates(index, allowed, q, score);
      var ranked := Sort(scored);
      r := Texts(Take(ranked, topK));
      SearchResults(index, allowed, q, score, topK);
    }
  }

  /** The context block build_context yields for the given index and query. */
  function ContextOf(index: seq<Entry>, embed: string -> Vector, score: (Vector, Vector) -> real, topK: int, hmos: seq<string>, query: string): string {
    Join(Texts(TopScored(index, hmos, embed(query), score, topK)), "\n\n")
  }

  /** The helper the chat turn calls: a retriever with the default top_k of 3. */
  class Retriever {
    const emb: EmbeddingRetriever

    constructor (kb: ChunkedKnowledgeBase, embed: string -> Vector, score: (Vector, Vector) -> real)
      ensures fresh(emb) && emb.topK == 3 && emb.embed == embed && emb.score == score
      ensures emb.index == IndexOf(kb.chunks, embed)
    {
      emb := new EmbeddingRetriever(kb, embed, score);
    }

    /** build_context(hmos, query): the snippets joined by a blank line. */
    method BuildContext(hmos: seq<string>, query: string) returns (ctx: string)
      ensures ctx == ContextOf(emb.index, emb.embed, emb.score, emb.topK, hmos, query)
      ensures forall i :: 0 <= i < |Texts(TopScored(emb.index, hmos, emb.embed(query), emb.score, emb.topK))| ==>
        Contains(ctx, Texts(TopScored(emb.index, hmos, emb.embed(query), emb.score, emb.topK))[i])
      ensures (forall p :: 0 <= p < |emb.index| ==> emb.index[p].hmo !in hmos) ==> ctx == ""
    {
      var snippets := emb.Search(hmos, query);
      ctx := Join(snippets, "\n\n");
      forall i | 0 <= i < |snippets|
        ensures Contains(ctx, snippets[i])
      {
        JoinContainsPart(snippets, "\n\n", i);
      }
    }
  }
}
