/**
 The script itself: the prompt converter, the global word-count dictionary
 `data` with the operations that accumulate into it, and the one-field
 `NeuralNetwork` weight holder. Console input becomes a parameter; printing
 is not modelled.
 */
module Program {
  import opened Text
  import opened Counts

  /** `convertPromptToData(prompt)`: the bag of words of the lowercased, whitespace-split prompt. */
  method ConvertPromptToData(prompt: string) returns (promptData: Counts)
    ensures promptData == Bag(Tokens(prompt))
  {
    var words := Tokens(prompt);
    promptData := map[];
    for i := 0 to |words|
      invariant promptData == Bag(words[..i])
    {
      var word := words[i];
      BagSnoc(words[..i], word);
      assert words[..i + 1] == words[..i] + [word];
      promptData := promptData[word := Get(promptData, word) + 1];
    }
    assert words[..|words|] == words;
  }

  /** The converter's result: each key is a token of the prompt and counts its occurrences; the counts add up to the number of tokens. */
  lemma PromptDataCounts(prompt: string)
    ensures Bag(Tokens(prompt)).Keys == set w | w in Tokens(prompt)
    ensures forall w :: w in Bag(Tokens(prompt)) ==> Bag(Tokens(prompt))[w] == multiset(Tokens(prompt))[w] >= 1
    ensures "" !in Bag(Tokens(prompt))
    ensures Total(Bag(Tokens(prompt))) == |Tokens(prompt)|
  {
    BagIsMultiset(Tokens(prompt));
    TotalBag(Tokens(prompt));
  }

  /** The converter ignores case: a prompt and its lowercase form give the same dictionary. */
  lemma PromptDataIgnoresCase(prompt: string)
    ensures Bag(Tokens(Lower(prompt))) == Bag(Tokens(prompt))
  {
    TokensIgnoreCase(prompt);
  }

  /**
   What `submitQuery(query)` does to `data`: nothing for the empty query, else
   merge the query's bag of words. Either way each word's count rises by its
   number of occurrences among the query's tokens, and only tokens become new keys.
   */
  function Submit(data: Counts, query: string): (r: Counts)
    ensures r.Keys == data.Keys + set w | w in Tokens(query)
    ensures forall w :: Get(r, w) == Get(data, w) + multiset(Tokens(query))[w]
  {
    TokensEmptyIff(query);
    MergeBagCounts(data, Tokens(query));

    if query == "" then data else Merge(data, Bag(Tokens(query)))
  }

  /** A query leaves `data` unchanged exactly when it has no tokens, that is, when it is empty or all whitespace. */
  lemma SubmitUnchangedIff(data: Counts, query: string)
    ensures Submit(data, query) == data <==> forall i :: 0 <= i < |query| ==> IsSpace(query[i])
  {
    TokensEmptyIff(query);
    MergeUnchangedIff(data, Bag(Tokens(query)));
    if Tokens(query) != [] {
      assert Tokens(query)[0] in Bag(Tokens(query));
    }
  }

  /** Submitting adds exactly the number of tokens of the query to the sum of all counts. */
  lemma SubmitTotal(data: Counts, query: string)
    ensures Total(Submit(data, query)) == Total(data) + |Tokens(query)|
  {
    if query == "" {
      TokensEmptyIff(query);
    } else {
      TotalMerge(data, Bag(Tokens(query)));
      TotalBag(Tokens(query));
    }
  }

  /** The state after a sequence of queries. */
  function SubmitAll(data: Counts, queries: seq<string>): Counts
    decreases queries
  {
    if queries == [] then data else SubmitAll(Submit(data, queries[0]), queries[1..])
  }

  /** All tokens of a sequence of queries, in order. */
  function AllTokens(queries: seq<string>): seq<string>
  {
    if queries == [] then [] else Tokens(queries[0]) + AllTokens(queries[1..])
  }

  /** Submitting one query to the bag of some words gives the bag of those words followed by the query's tokens. */
  lemma SubmitBag(ws: seq<string>, q: string)
    ensures Submit(Bag(ws), q) == Bag(ws + Tokens(q))
  {
    if q == "" {
      TokensEmptyIff(q);
      assert ws + Tokens(q) == ws;
    } else {
      MergeBag(ws, Tokens(q));
    }
  }

  /** One step of a run of queries from a bag of words. */
  lemma SubmitAllStep(ws: seq<string>, queries: seq<string>)
    requires queries != []
    ensures SubmitAll(Bag(ws), queries) == SubmitAll(Bag(ws + Tokens(queries[0])), queries[1..])
  {
    SubmitBag(ws, queries[0]);
  }

  lemma AllTokensStep(ws: seq<string>, queries: seq<string>)
    requires queries != []
    ensures ws + AllTokens(queries) == (ws + Tokens(queries[0])) + AllTokens(queries[1..])
  {
  }

  /** Starting from the bag of some words, any run of queries yields the bag of those words followed by all the queries' tokens. */
  lemma {:induction false} SubmitAllIsBag(ws: seq<string>, queries: seq<string>)
    ensures SubmitAll(Bag(ws), queries) == Bag(ws + AllTokens(queries))
    decreases queries
  {
    if queries == [] {
      assert ws + [] == ws;
    } else {
      SubmitAllStep(ws, queries);
      SubmitAllIsBag(ws + Tokens(queries[0]), queries[1..]);
      AllTokensStep(ws, queries);
    }
  }

  /** From the empty dictionary of line 4, `data` is always the bag of words of everything submitted so far. */
  lemma DataIsBagOfSubmitted(queries: seq<string>)
    ensures SubmitAll(map[], queries) == Bag(AllTokens(queries))
    ensures Total(SubmitAll(map[], queries)) == |AllTokens(queries)|
  {
    var empty: seq<string> := [];
    BagEmpty();
    SubmitAllIsBag(empty, queries);
    assert empty + AllTokens(queries) == AllTokens(queries);
    TotalBag(AllTokens(queries));
  }

  /** One query submitted to the empty dictionary leaves exactly the query's bag of words. */
  lemma SubmitFromEmpty(query: string)
    ensures Submit(map[], query) == Bag(Tokens(query))
  {
    var empty: seq<string> := [];
    BagEmpty();
    SubmitBag(empty, query);
    assert empty + Tokens(query) == Tokens(query);
  }

  /** `class NeuralNetwork`: holds a weight that `changeWeight` overwrites. The weight's type is left generic. */
  class NeuralNetwork<W> {
    var weights: W

    constructor (weights: W)
      ensures this.weights == weights
    {
      this.weights := weights;
    }

    method ChangeWeight(newWeight: W)
      modifies this`weights
      ensures weights == newWeight
    {
      weights := newWeight;
    }
  }

  /** The module-level dictionary `data` and the functions that update it through `global data`. */
  class LearntData {
    var data: Counts

    constructor ()
      ensures data == map[]
    {
      data := map[];
    }

    /** `saveLearntData(newData)`: adds each count of `newData` to `data`, key by key. */
    method SaveLearntData(newData: Counts)
      modifies this`data
      ensures data == Merge(old(data), newData)
      ensures forall k :: k in newData ==> data[k] == Get(old(data), k) + newData[k]
      ensures forall k :: k !in newData ==> Get(data, k) == Get(old(data), k) && (k in data <==> k in old(data))
    {
      var pending := newData.Keys;
      while pending != {}
        invariant pending <= newData.Keys
        invariant data == Merge(old(data), newData - pending)
        decreases pending
      {
        var k :| k in pending;
        ghost var done := newData - pending;
        assert (newData - (pending - {k})) - {k} == done;
        MergeStep(old(data), newData - (pending - {k}), k);
        data := data[k := Get(data, k) + newData[k]];
        pending := pending - {k};
      }
      assert newData - pending == newData;
    }

    /** `submitQuery(query)`: an empty query changes nothing; otherwise its bag of words is merged into `data`. */
    method SubmitQuery(query: string)
      modifies this`data
      ensures data == Submit(old(data), query)
      ensures query == "" ==> data == old(data)
    {
      if query != "" {
        var qData := ConvertPromptToData(query);
        SaveLearntData(qData);
      }
    }
  }

  /** The script's top level: `data = {}`, `nn = NeuralNetwork(initialWeight)`, `nn.changeWeight(newWeight)`, then one query read from the console. */
  method RunScript<W>(initialWeight: W, newWeight: W, input: string) returns (state: LearntData, nn: NeuralNetwork<W>)
    ensures fresh(state) && fresh(nn)
    ensures nn.weights == newWeight
    ensures state.data == Submit(map[], input)
    ensures state.data == Bag(Tokens(input))
  {
    state := new LearntData();
    nn := new NeuralNetwork(initialWeight);
    nn.ChangeWeight(newWeight);
    state.SubmitQuery(input);
    SubmitFromEmpty(input);
  }
}
