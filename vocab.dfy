/** The vocabulary browser of components/VocabSection.tsx: a batch fetch that
    replaces the discovered list and stamps each word with a local id, the
    "Master" action that hands a word to the app and drops it from the list,
    and the recently-mastered strip. `fetchNewWords` is split at its `await`
    into `BeginFetch` and `CompleteFetch`; the gateway's words and the
    `Date.now()` readings are parameters. */
module VocabSection {
  import opened Types
  import opened JsString
  import Progress
  import App

  /** The number of words every fetch asks for. */
  const BatchSize: nat := 3

  /** How many mastered words the strip shows. */
  const RecentCount: nat := 5

  /** The template `vocab-${Date.now()}-${i}`: after the `vocab-` prefix,
      splitting on '-' gives back exactly the two rendered numbers. */
  function VocabId(time: nat, index: nat): (r: string)
    ensures |r| >= 6 && r[..6] == "vocab-"
    ensures Split(r[6..], '-') == [Decimal(time), Decimal(index)]
  {
    var a, b := Decimal(time), Decimal(index);
    assert '-' !in a && '-' !in b by {
      assert forall k :: 0 <= k < |a| ==> IsDigit(a[k]);
      assert forall k :: 0 <= k < |b| ==> IsDigit(b[k]);
    }
    var r := "vocab-" + a + "-" + b;
    assert r[6..] == a + ['-'] + b;
    SplitAfterPiece(a, '-', b);
    SplitWithoutSeparator(b, '-');
    r
  }

  /** An id determines both the clock reading and the index it was made from. */
  lemma VocabIdInjective(t1: nat, i1: nat, t2: nat, i2: nat)
    requires VocabId(t1, i1) == VocabId(t2, i2)
    ensures t1 == t2 && i1 == i2
  {
    var a, b := Decimal(t1), Decimal(t2);
    var x := a + "-" + Decimal(i1);
    var y := b + "-" + Decimal(i2);
    assert x == VocabId(t1, i1)[6..] && y == VocabId(t2, i2)[6..];
    // Digits hold no '-', so the first '-' after the prefix ends the clock reading.
    assert '-' !in a && '-' !in b by {
      assert forall k :: 0 <= k < |a| ==> IsDigit(a[k]);
      assert forall k :: 0 <= k < |b| ==> IsDigit(b[k]);
    }
    FirstIndexAfterPiece(a, '-', Decimal(i1));
    FirstIndexAfterPiece(b, '-', Decimal(i2));
    assert x == a + ['-'] + Decimal(i1) && y == b + ['-'] + Decimal(i2);
    assert |a| == |b|;
    assert a == x[..|a|] && b == y[..|b|];
    DecimalInjective(t1, t2);
    assert Decimal(i1) == x[|a| + 1..] && Decimal(i2) == y[|b| + 1..];
    DecimalInjective(i1, i2);
  }

  /** No two words share an id. */
  predicate DistinctIds(ws: seq<VocabularyWord>) {
    forall i, j :: 0 <= i < j < |ws| ==> ws[i].id != ws[j].id
  }

  /** The `words.map((w, i) => ({ ...w, id: ... }))` step: the batch in its
      order, each word keeping its text, translation and example, with the
      id it arrived with overwritten. `clock[i]` is the `Date.now()` reading
      taken for the i-th word. The ids of one batch are pairwise distinct,
      whatever the clock readings, because their index suffixes differ. */
  function StampIds(words: seq<VocabularyWord>, clock: seq<nat>): (r: seq<VocabularyWord>)
    requires |clock| == |words|
    ensures |r| == |words|
    ensures forall k :: 0 <= k < |words| ==>
      r[k].word == words[k].word && r[k].translation == words[k].translation &&
      r[k].example == words[k].example && r[k].id == VocabId(clock[k], k)
    ensures DistinctIds(r)
  {
    var r := seq(|words|, k requires 0 <= k < |words| => words[k].(id := VocabId(clock[k], k)));
    forall i, j | 0 <= i < j < |r| ensures r[i].id != r[j].id {
      if r[i].id == r[j].id {
        VocabIdInjective(clock[i], i, clock[j], j);
      }
    }
    r
  }

  /** `prev.filter(w => w.id !== id)`. */
  function RemoveById(ws: seq<VocabularyWord>, id: string): (r: seq<VocabularyWord>)
    ensures |r| <= |ws|
    ensures forall k :: 0 <= k < |r| ==> r[k].id != id
  {
    if ws == [] then []
    else if ws[0].id == id then RemoveById(ws[1..], id)
    else [ws[0]] + RemoveById(ws[1..], id)
  }

  /** The filter keeps order: filtering a concatenation is concatenating the filtered parts. */
  lemma {:induction false} RemoveByIdConcat(a: seq<VocabularyWord>, b: seq<VocabularyWord>, id: string)
    ensures RemoveById(a + b, id) == RemoveById(a, id) + RemoveById(b, id)
  {
    if a == [] {
      assert a + b == b;
    } else {
      assert (a + b)[1..] == a[1..] + b;
      RemoveByIdConcat(a[1..], b, id);
    }
  }

  /** Every entry with another id is kept. */
  lemma {:induction false} RemoveByIdKeeps(ws: seq<VocabularyWord>, id: string, w: VocabularyWord)
    requires w in ws && w.id != id
    ensures w in RemoveById(ws, id)
  {
    if ws[0] != w {
      RemoveByIdKeeps(ws[1..], id, w);
    }
  }

  /** Filtering by an id nobody has changes nothing. */
  lemma {:induction false} RemoveByIdAbsent(ws: seq<VocabularyWord>, id: string)
    requires forall k :: 0 <= k < |ws| ==> ws[k].id != id
    ensures RemoveById(ws, id) == ws
  {
    if ws != [] {
      RemoveByIdAbsent(ws[1..], id);
    }
  }

  /** When no other entry shares the id at index `k`, filtering by it removes
      exactly that entry. */
  lemma {:induction false} RemoveByIdUnique(ws: seq<VocabularyWord>, k: nat)
    requires k < |ws|
    requires forall j :: 0 <= j < |ws| && j != k ==> ws[j].id != ws[k].id
    ensures RemoveById(ws, ws[k].id) == ws[..k] + ws[k + 1..]
  {
    var id := ws[k].id;
    if k == 0 {
      forall j | 0 <= j < |ws[1..]| ensures ws[1..][j].id != id {
        assert ws[1..][j] == ws[j + 1];
      }
      RemoveByIdAbsent(ws[1..], id);
    } else {
      var tail := ws[1..];
      assert tail[k - 1] == ws[k];
      forall j | 0 <= j < |tail| && j != k - 1 ensures tail[j].id != id {
        assert tail[j] == ws[j + 1];
      }
      RemoveByIdUnique(tail, k - 1);
      assert ws[0].id != id;
      assert ws[..k] == [ws[0]] + tail[..k - 1];
      assert ws[k + 1..] == tail[k..];
    }
  }

  function Reverse(s: seq<VocabularyWord>): (r: seq<VocabularyWord>)
    ensures |r| == |s|
    ensures forall k :: 0 <= k < |s| ==> r[k] == s[|s| - 1 - k]
  {
    if s == [] then [] else Reverse(s[1..]) + [s[0]]
  }

  /** `masteredWords.slice(-5).reverse()`: the last five mastered words (all
      of them when there are fewer), newest first. */
  function RecentMastered(mastered: seq<VocabularyWord>): (r: seq<VocabularyWord>)
    ensures |r| == if |mastered| < RecentCount then |mastered| else RecentCount
    ensures forall k :: 0 <= k < |r| ==> r[k] == mastered[|mastered| - 1 - k]
  {
    var start := if |mastered| < RecentCount then 0 else |mastered| - RecentCount;
    Reverse(mastered[start..])
  }

  /** A batch of three is fetched and the second word mastered: two words
      stay discovered, in order, and the app gains the word and 15 XP. */
  lemma MasterSecondOfBatch(words: seq<VocabularyWord>, clock: seq<nat>, p: ProgressState, today: string)
    requires |words| == BatchSize && |clock| == BatchSize
    ensures var ds := StampIds(words, clock);
      RemoveById(ds, ds[1].id) == [ds[0], ds[2]] &&
      Progress.MasterWord(p, ds[1], today).masteredVocabulary == p.masteredVocabulary + [ds[1]] &&
      Progress.MasterWord(p, ds[1], today).experience == p.experience + 15
  {
    var ds := StampIds(words, clock);
    assert ds[0].id != ds[1].id && ds[2].id != ds[1].id;
    RemoveByIdUnique(ds, 1);
    assert ds[..1] + ds[2..] == [ds[0], ds[2]];
  }

  /** The state of the vocabulary component. */
  class Component {
    var discovered: seq<VocabularyWord>
    var isLoading: bool

    constructor ()
      ensures discovered == [] && !isLoading
    {
      discovered := [];
      isLoading := false;
    }

    /** `fetchNewWords` up to the awaited gateway call, which asks for `count` words. */
    method BeginFetch() returns (count: nat)
      modifies this`isLoading
      ensures isLoading && count == BatchSize
    {
      isLoading := true;
      count := BatchSize;
    }

    /** `fetchNewWords` after the call settles: a batch replaces the whole
        list, stamped; a failure leaves the list as it was. The loading flag
        drops in both cases. */
    method CompleteFetch(outcome: Settled<seq<VocabularyWord>>, clock: seq<nat>)
      requires outcome.Fulfilled? ==> |clock| == |outcome.value|
      modifies this
      ensures !isLoading
      ensures outcome.Fulfilled? ==> discovered == StampIds(outcome.value, clock) && DistinctIds(discovered)
      ensures outcome.Rejected? ==> discovered == old(discovered)
    {
      match outcome {
        case Fulfilled(words) =>
          discovered := StampIds(words, clock);
        case Rejected =>
      }
      isLoading := false;
    }

    /** `handleLearn`: the word goes to the app's `onMasterWord` once, whether
        or not it is still listed, and every listed entry with its id is
        dropped, the rest keeping their order. */
    method HandleLearn(word: VocabularyWord, app: App.Component, today: string)
      modifies this`discovered, app`progress
      ensures app.progress == Progress.MasterWord(old(app.progress), word, today)
      ensures discovered == RemoveById(old(discovered), word.id)
    {
      app.OnMasterWord(word, today);
      discovered := RemoveById(discovered, word.id);
    }
  }
}
