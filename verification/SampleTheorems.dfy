/** Which languages a stratified sample keeps (bench/contextbench/loader.go). */
module SampleTheorems {
  import opened StringOrder
  import opened Sample

  /** Language `j` occurs in the sample exactly when its block begins before the cut. */
  lemma LanguageKeptIff(out: seq<Task>, tasks: seq<Task>, targetN: nat, langs: seq<string>, j: nat)
    requires tasks != [] && IsSample(out, tasks, targetN) && AreLanguages(langs, tasks) && j < |langs|
    ensures Count(out, Speaks(langs[j])) > 0 <==> Shares(tasks, langs[..j], targetN) < targetN
  {
    hide Count, Shares, AreLanguages;
    assert TakesItsPlaces(out, tasks, targetN, langs, j);
    BlocksAscend(tasks, langs, targetN, j, |langs|);
    SharesAreLastStart(tasks, langs, targetN);
  }

  /**
   Every language occurs in the sample exactly when the shares of all languages but
   the last leave a place. The shares are read off the language counts.
   */
  lemma EveryLanguageKeptIff(out: seq<Task>, tasks: seq<Task>, targetN: nat, langs: seq<string>)
    requires tasks != [] && IsSample(out, tasks, targetN) && AreLanguages(langs, tasks)
    ensures langs != []
    ensures (forall l :: HasLanguage(tasks, l) ==> Count(out, Speaks(l)) > 0)
            <==> Shares(tasks, langs[..|langs| - 1], targetN) < targetN
  {
    hide Count, Shares, IsSample, StrictlySorted;
    assert tasks[0] in tasks && HasLanguage(tasks, tasks[0].language);
    assert tasks[0].language in langs;
    var last := |langs| - 1;
    LanguageKeptIff(out, tasks, targetN, langs, last);
    assert langs[last] in langs;
    if Shares(tasks, langs[..last], targetN) < targetN {
      forall l | HasLanguage(tasks, l) ensures Count(out, Speaks(l)) > 0 {
        assert l in langs;
        var j :| 0 <= j < |langs| && langs[j] == l;
        LanguageKeptIff(out, tasks, targetN, langs, j);
        BlocksAscend(tasks, langs, targetN, j, last);
      }
    }
  }

  /** Fewer places than languages always lose one: each language takes at least one place. */
  lemma FewerPlacesLoseALanguage(out: seq<Task>, tasks: seq<Task>, targetN: nat, langs: seq<string>)
    requires tasks != [] && IsSample(out, tasks, targetN) && AreLanguages(langs, tasks) && targetN < |langs|
    ensures exists l :: HasLanguage(tasks, l) && Count(out, Speaks(l)) == 0
  {
    hide Count, Shares, IsSample;
    EveryLanguageKeptIff(out, tasks, targetN, langs);
    AtLeastOneEach(tasks, langs, targetN, |langs| - 1);
  }

  lemma {:induction false} AtLeastOneEach(tasks: seq<Task>, langs: seq<string>, targetN: nat, j: nat)
    requires tasks != [] && j <= |langs|
    ensures BlockStart(tasks, langs, targetN, j) >= j
  {
    hide *;
    if j > 0 {
      AtLeastOneEach(tasks, langs, targetN, j - 1);
      BlockStartNext(tasks, langs, targetN, j - 1);
      AtLeastOne(tasks, langs[j - 1], targetN);
    }
  }

  lemma AtLeastOne(tasks: seq<Task>, l: string, targetN: nat)
    requires tasks != []
    ensures Share(tasks, l, targetN) >= 1
  {
  }

  // ----- As many places as languages are not enough -----

  /** Four tasks in one language and one in each of two others. */
  function Six(): (r: seq<Task>)
    ensures |r| == 6
  {
    [Task("1", "a", ""), Task("2", "a", ""), Task("3", "a", ""), Task("4", "a", ""),
     Task("5", "b", ""), Task("6", "c", "")]
  }

  lemma OneMore(tasks: seq<Task>, t: Task, l: string)
    ensures OfLanguage(tasks + [t], l) == OfLanguage(tasks, l) + if t.language == l then [t] else []
  {
    assert (tasks + [t])[..|tasks|] == tasks;
  }

  lemma SixCounts()
    ensures |OfLanguage(Six(), "a")| == 4 && |OfLanguage(Six(), "b")| == 1
  {
    hide OfLanguage;
    var s := Six();
    assert OfLanguage([], "a") == [] && OfLanguage([], "b") == [] by { NoTasks(); }
    assert s[..0] == [];
    var i := 0;
    while i < 6
      invariant 0 <= i <= 6
      invariant |OfLanguage(s[..i], "a")| == (if i < 4 then i else 4)
      invariant |OfLanguage(s[..i], "b")| == (if i < 5 then 0 else 1)
    {
      assert s[..i + 1] == s[..i] + [s[i]];
      OneMore(s[..i], s[i], "a");
      OneMore(s[..i], s[i], "b");
      i := i + 1;
    }
    assert s[..6] == s;
  }

  lemma NoTasks()
    ensures OfLanguage([], "a") == [] && OfLanguage([], "b") == []
  {
  }

  lemma SixLanguages()
    ensures AreLanguages(["a", "b", "c"], Six())
  {
    var s, langs := Six(), ["a", "b", "c"];
    assert Less("a", "b") && Less("b", "c") && Less("a", "c");
    forall l ensures l in langs <==> HasLanguage(s, l) {
      assert s[0] in s && s[4] in s && s[5] in s;
    }
  }

  /** With three places for three languages the third is lost: the shares are two, one and one. */
  lemma ThreePlacesLoseTheThird(out: seq<Task>)
    requires IsSample(out, Six(), 3)
    ensures Shares(Six(), ["a", "b"], 3) == 3 && Count(out, Speaks("c")) == 0
  {
    hide Count, IsSample, OfLanguage, AreLanguages;
    SixLanguages();
    SixCounts();
    var langs := ["a", "b", "c"];
    BlockStartNext(Six(), langs, 3, 0);
    BlockStartNext(Six(), langs, 3, 1);
    assert langs[..0] == [] && langs[..2] == ["a", "b"];
    LanguageKeptIff(out, Six(), 3, langs, 2);
  }
}
