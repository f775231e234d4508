/** Concrete registries: what the resolver answers for particular listings. */
module Scenarios {
  import opened Wrappers
  import opened Decimal
  import opened Paths
  import opened Resolver

  /** Stray names are skipped and the numeric maximum wins, also over a negative name. */
  lemma MixedListing()
    ensures Latest({"0", "2", "5", "abc", "3.5", "-1"}) == Some(5)
    ensures NextVersion({"0", "2", "5", "abc", "3.5", "-1"}) == 6
  {
    var names := {"0", "2", "5", "abc", "3.5", "-1"};
    assert ParseInt("abc") == None by { assert !IsDigit("abc"[0]); }
    assert ParseInt("3.5") == None by {
      assert !AllDigits("3.5") by { assert !IsDigit("3.5"[1]); }
    }
    assert ParseInt("-1") == Some(-1) by { assert "-1"[1..] == "1"; }
    assert ParseInt("5") == Some(5);
    assert ParseInt("2") == Some(2);
    assert ParseInt("0") == Some(0) by { assert "0"[..0] == []; }
    forall e | e in names && ParseInt(e).Some? ensures ParseInt(e).value <= 5 {
      if e == "-1" {
      } else if e == "0" {
      } else if e == "2" {
      } else {
        assert e == "5";
      }
    }
    assert "5" in names;
    var latest := Latest(names);
    assert latest.Some?;
    assert 5 <= latest.value;
    var e :| e in names && ParseInt(e) == latest;
    assert latest.value <= 5;
  }

  /** A directory named "007" is version 7, and the latest path is the canonical "7". */
  lemma CanonicalName()
    ensures Latest({"007"}) == Some(7)
    ensures Render(7) == "7"
  {
    assert ParseInt("007") == Some(7) by {
      LeadingZero("07");
      LeadingZero("7");
      assert "0" + "07" == "007";
      assert "0" + "7" == "07";
    }
  }

  /** Negative names are versions too: a registry holding only "-5" allocates "-4" next. */
  lemma NegativeVersion()
    ensures NextVersion({"-5"}) == -4
    ensures Render(-4) == "-4"
  {
  }

  /**
   * An empty registry under the default root: the model reader fails, the
   * first triple goes into `saved_models/0`, and the readers then find it.
   */
  method FirstSave() returns (before: Result<string, Error>, paths: SavePaths, after: Result<string, Error>)
    ensures before == Failure(NotAvailable(Model))
    ensures forall kind :: paths.Get(kind) == Join(Join(DefaultRegistry, "0"), FileName(kind))
    ensures after == Success(Join(Join(DefaultRegistry, "0"), ModelFileName))
  {
    var resolver := new ModelResolver({});
    before := resolver.LatestPath(Model);
    paths := resolver.GetLatestSavePaths();
    assert NextVersion({}) == 0;
    assert Render(0) == "0";
    forall kind ensures paths.Get(kind) == Join(Join(DefaultRegistry, "0"), FileName(kind)) {
      SplitJoin(Join(DefaultRegistry, "0"), FileName(kind));
      JoinSplit(paths.Get(kind));
    }
    after := resolver.LatestPath(Model);
  }

  /** Two single-path saves in a row land in two consecutive version directories. */
  method TwoSingleSaves(resolver: ModelResolver) returns (modelPath: string, transformerPath: string)
    modifies resolver
    ensures Dirname(modelPath) == Join(resolver.root, Render(NextVersion(old(resolver.entries))))
    ensures Dirname(transformerPath) == Join(resolver.root, Render(NextVersion(old(resolver.entries)) + 1))
  {
    ghost var before := resolver.entries;
    modelPath := resolver.GetLatestSavePath(Model);
    transformerPath := resolver.GetLatestSavePath(Transformer);
    ConsecutiveSaves(before);
  }
}
