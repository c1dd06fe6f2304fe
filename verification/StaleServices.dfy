/** The clean-up at the end of an elapsed MetallbScan: failures of services that are
    no longer listed are deleted from the list being ranged over, in place. */
module StaleServices {
  import opened GoStrings
  import opened FailureMessages

  // ----- which messages the clean-up looks at

  const NO_PODS := [Doesnt, Have, Any, Target, Pods]
  const NO_IP := [Is, Found, With, No, Valid, IP]
  const NOT_IN_POOL := [Is, Not, Part, Of, Any, Configured, IP, Pools]
  const NOT_ADVERTISED := [Is, Not, Configured, To, Be, Advertised]
  const NOT_ESTABLISHED := [Connectivity, Is, Not, Established, From, Worker]

  predicate Mentions(check: string, pat: seq<Word>)
    requires |pat| >= 2
  {
    Contains(check, Join(Spelled(pat), ' '))
  }

  lemma MentionsHasSpace(check: string, pat: seq<Word>)
    requires |pat| >= 2 && Mentions(check, pat)
    ensures |Split(check, ' ')| >= 2
  {
    var p := Join(Spelled(pat), ' ');
    JoinStep(Spelled(pat), ' ');
    var i :| 0 <= i <= |check| && OccursAt(check, p, i);
    assert check[i + |Spelled(pat)[0]|] == check[i..][|Spelled(pat)[0]|] == ' ';
  }

  /** The test one iteration of the clean-up makes on the message it reads. */
  predicate IsStale(check: string, live: seq<string>) {
    if Mentions(check, NO_PODS) || Mentions(check, NO_IP) || Mentions(check, NOT_IN_POOL) then
      ServiceField(check) !in live
    else if Mentions(check, NOT_ADVERTISED) then
      Before(ServiceField(check), "'s") !in live
    else
      false
  }

  /** strings.Split(check, " ")[1] */
  function ServiceField(check: string): string
    requires Mentions(check, NO_PODS) || Mentions(check, NO_IP)
             || Mentions(check, NOT_IN_POOL) || Mentions(check, NOT_ADVERTISED)
  {
    assert |Split(check, ' ')| >= 2 by {
      if Mentions(check, NO_PODS) { MentionsHasSpace(check, NO_PODS); }
      else if Mentions(check, NO_IP) { MentionsHasSpace(check, NO_IP); }
      else if Mentions(check, NOT_IN_POOL) { MentionsHasSpace(check, NOT_IN_POOL); }
      else { MentionsHasSpace(check, NOT_ADVERTISED); }
    }
    Split(check, ' ')[1]
  }

  // ----- the substring tests select kinds of failure

  lemma PatternFree(pat: seq<Word>)
    requires forall w :: w in pat ==> w.Fixed()
    ensures FreeOf(Spelled(pat), ' ')
  {
    forall x | x in Spelled(pat) ensures ' ' !in x {
      var i :| 0 <= i < |pat| && Spelled(pat)[i] == x;
      assert pat[i] in pat;
      SpellFree(pat[i]);
    }
  }

  /** A message mentions fixed words only where they line up with its own words. */
  lemma MentionedWords(f: Failure, pat: seq<Word>) returns (j: nat)
    requires f.WellNamed() && |pat| >= 2 && Mentions(f.Render(), pat)
    requires forall w :: w in pat ==> w.Fixed()
    ensures WordsAt(Spelled(f.Tokens()), Spelled(pat), j)
  {
    MessageSplits(f);
    PatternFree(pat);
    ContainsWords(Spelled(f.Tokens()), Spelled(pat), ' ');
    j :| WordsAt(Spelled(f.Tokens()), Spelled(pat), j);
  }

  lemma InnerWord(f: Failure, pat: seq<Word>, j: nat, k: nat)
    requires |pat| >= 2 && WordsAt(Spelled(f.Tokens()), Spelled(pat), j) && 0 < k < |pat| - 1
    ensures j + |pat| <= |f.Tokens()| && Spell(f.Tokens()[j + k]) == Spell(pat[k])
  {
    assert Spelled(f.Tokens())[j + k] == Spelled(pat)[k];
  }

  /** What may stand next to what in a message: arguments are apart, and the five
      telling pairs of words occur in one kind of failure each. */
  predicate MayFollow(f: Failure, v: Word, w: Word) {
    && (v.Fixed() || (w.Fixed() && w !in {Target, With, Part, To, Established}))
    && (w.Fixed() || v !in {Any, Found, Not, Configured})
    && (v == Any && w == Target ==> f.NoTargetPods?)
    && (v == Found && w == With ==> f.NoIp?)
    && (v == Not && w == Part ==> f.NotInPool?)
    && (v == Configured && w == To ==> f.PoolNotAdvertised?)
    && (v == Not && w == Established ==> f.NotEstablished?)
  }

  lemma PoolNeighbors(f: Failure, i: nat)
    requires i + 1 < |f.Tokens()| && Kind(f) <= 2
    ensures MayFollow(f, f.Tokens()[i], f.Tokens()[i + 1])
  {
  }

  lemma AdvertisedNeighbors(f: Failure, i: nat)
    requires i + 1 < |f.Tokens()| && Kind(f) == 3
    ensures MayFollow(f, f.Tokens()[i], f.Tokens()[i + 1])
  {
  }

  lemma EndpointNeighbors(f: Failure, i: nat)
    requires i + 1 < |f.Tokens()| && 4 <= Kind(f) <= 6
    ensures MayFollow(f, f.Tokens()[i], f.Tokens()[i + 1])
  {
  }

  lemma HopNeighbors(f: Failure, i: nat)
    requires i + 1 < |f.Tokens()| && 7 <= Kind(f) <= 9
    ensures MayFollow(f, f.Tokens()[i], f.Tokens()[i + 1])
  {
  }

  lemma RouteNeighbors(f: Failure, i: nat)
    requires i + 1 < |f.Tokens()| && Kind(f) == 10
    ensures MayFollow(f, f.Tokens()[i], f.Tokens()[i + 1])
  {
  }

  lemma BestRouteNeighbors(f: Failure, i: nat)
    requires i + 1 < |f.Tokens()| && Kind(f) == 11
    ensures MayFollow(f, f.Tokens()[i], f.Tokens()[i + 1])
  {
  }

  lemma SpeakerNeighbors(f: Failure, i: nat)
    requires i + 1 < |f.Tokens()| && 12 <= Kind(f)
    ensures MayFollow(f, f.Tokens()[i], f.Tokens()[i + 1])
  {
  }

  lemma Neighbors(f: Failure, i: nat)
    requires i + 1 < |f.Tokens()|
    ensures MayFollow(f, f.Tokens()[i], f.Tokens()[i + 1])
  {
    if Kind(f) <= 2 { PoolNeighbors(f, i); }
    else if Kind(f) == 3 { AdvertisedNeighbors(f, i); }
    else if Kind(f) <= 6 { EndpointNeighbors(f, i); }
    else if Kind(f) <= 9 { HopNeighbors(f, i); }
    else if Kind(f) == 10 { RouteNeighbors(f, i); }
    else if Kind(f) == 11 { BestRouteNeighbors(f, i); }
    else { SpeakerNeighbors(f, i); }
  }

  lemma WordsFaced(f: Failure, pat: seq<Word>, k: nat) returns (i: nat)
    requires f.WellNamed() && |pat| >= 2 && Mentions(f.Render(), pat)
    requires (forall x :: x in pat ==> x.Fixed()) && 0 < k < |pat| - 2
    ensures i + 1 < |f.Tokens()|
    ensures Spell(f.Tokens()[i]) == Spell(pat[k]) && Spell(f.Tokens()[i + 1]) == Spell(pat[k + 1])
  {
    var j := MentionedWords(f, pat);
    i := j + k;
    InnerPair(f, pat, j, k);
  }

  lemma InnerPair(f: Failure, pat: seq<Word>, j: nat, k: nat)
    requires |pat| >= 2 && WordsAt(Spelled(f.Tokens()), Spelled(pat), j) && 0 < k < |pat| - 2
    ensures j + |pat| <= |f.Tokens()|
    ensures Spell(f.Tokens()[j + k]) == Spell(pat[k]) && Spell(f.Tokens()[j + k + 1]) == Spell(pat[k + 1])
  {
    InnerWord(f, pat, j, k);
    InnerWord(f, pat, j, k + 1);
  }

  /** Words `k` and `k + 1` of a mentioned pattern face words that may stand together. */
  lemma PairFaced(f: Failure, pat: seq<Word>, k: nat) returns (v: Word, w: Word)
    requires f.WellNamed() && |pat| >= 2 && Mentions(f.Render(), pat)
    requires (forall x :: x in pat ==> x.Fixed()) && 0 < k < |pat| - 2
    ensures MayFollow(f, v, w) && Spell(v) == Spell(pat[k]) && Spell(w) == Spell(pat[k + 1])
  {
    var i := WordsFaced(f, pat, k);
    v, w := f.Tokens()[i], f.Tokens()[i + 1];
    Neighbors(f, i);
  }

  lemma MentionsNoPods(f: Failure)
    requires f.WellNamed() && Mentions(f.Render(), NO_PODS)
    ensures f.NoTargetPods?
  {
    var v, w := PairFaced(f, NO_PODS, 2);
    if v.Fixed() { Told(v, Any); }
    if w.Fixed() { Told(w, Target); }
  }

  lemma MentionsNoIp(f: Failure)
    requires f.WellNamed() && Mentions(f.Render(), NO_IP)
    ensures f.NoIp?
  {
    var v, w := PairFaced(f, NO_IP, 1);
    if v.Fixed() { Told(v, Found); }
    if w.Fixed() { Told(w, With); }
  }

  lemma MentionsNotInPool(f: Failure)
    requires f.WellNamed() && Mentions(f.Render(), NOT_IN_POOL)
    ensures f.NotInPool?
  {
    var v, w := PairFaced(f, NOT_IN_POOL, 1);
    if v.Fixed() { Told(v, Not); }
    if w.Fixed() { Told(w, Part); }
  }

  lemma MentionsNotAdvertised(f: Failure)
    requires f.WellNamed() && Mentions(f.Render(), NOT_ADVERTISED)
    ensures f.PoolNotAdvertised?
  {
    var v, w := PairFaced(f, NOT_ADVERTISED, 2);
    if v.Fixed() { Told(v, Configured); }
    if w.Fixed() { Told(w, To); }
  }

  lemma MentionsNotEstablished(f: Failure)
    requires f.WellNamed() && Mentions(f.Render(), NOT_ESTABLISHED)
    ensures f.NotEstablished?
  {
    var v, w := PairFaced(f, NOT_ESTABLISHED, 2);
    if v.Fixed() { Told(v, Not); }
    if w.Fixed() { Told(w, Established); }
  }

  lemma MentionsAt(f: Failure, pat: seq<Word>, j: nat)
    requires |pat| >= 2 && j + |pat| <= |f.Tokens()| && f.Tokens()[j..j + |pat|] == pat
    ensures Mentions(f.Render(), pat)
  {
    var w, p := Spelled(f.Tokens()), Spelled(pat);
    forall k | 0 <= k < |pat| ensures w[j + k] == p[k] { assert f.Tokens()[j..j + |pat|][k] == pat[k]; }
    assert w[j..j + |pat|] == p;
    WindowContained(w, p, j, ' ');
  }

  lemma NoPodsExactly(f: Failure)
    requires f.WellNamed()
    ensures Mentions(f.Render(), NO_PODS) <==> f.NoTargetPods?
  {
    if Mentions(f.Render(), NO_PODS) { MentionsNoPods(f); }
    if f.NoTargetPods? {
      assert f.Tokens()[5..10] == NO_PODS;
      MentionsAt(f, NO_PODS, 5);
    }
  }

  lemma NoIpExactly(f: Failure)
    requires f.WellNamed()
    ensures Mentions(f.Render(), NO_IP) <==> f.NoIp?
  {
    if Mentions(f.Render(), NO_IP) { MentionsNoIp(f); }
    if f.NoIp? {
      assert f.Tokens()[2..8] == NO_IP;
      MentionsAt(f, NO_IP, 2);
    }
  }

  lemma NotInPoolExactly(f: Failure)
    requires f.WellNamed()
    ensures Mentions(f.Render(), NOT_IN_POOL) <==> f.NotInPool?
  {
    if Mentions(f.Render(), NOT_IN_POOL) { MentionsNotInPool(f); }
    if f.NotInPool? {
      assert f.Tokens()[6..14] == NOT_IN_POOL;
      MentionsAt(f, NOT_IN_POOL, 6);
    }
  }

  lemma NotAdvertisedExactly(f: Failure)
    requires f.WellNamed()
    ensures Mentions(f.Render(), NOT_ADVERTISED) <==> f.PoolNotAdvertised?
  {
    if Mentions(f.Render(), NOT_ADVERTISED) { MentionsNotAdvertised(f); }
    if f.PoolNotAdvertised? {
      assert f.Tokens()[12..18] == NOT_ADVERTISED;
      MentionsAt(f, NOT_ADVERTISED, 12);
    }
  }

  lemma NotEstablishedExactly(f: Failure)
    requires f.WellNamed()
    ensures Mentions(f.Render(), NOT_ESTABLISHED) <==> f.NotEstablished?
  {
    if Mentions(f.Render(), NOT_ESTABLISHED) { MentionsNotEstablished(f); }
    if f.NotEstablished? {
      assert f.Tokens()[3..9] == NOT_ESTABLISHED;
      MentionsAt(f, NOT_ESTABLISHED, 3);
    }
  }

  /** Each substring test holds of the messages of one kind and of no others. */
  lemma MentionsExactly(f: Failure)
    requires f.WellNamed()
    ensures Mentions(f.Render(), NO_PODS) <==> f.NoTargetPods?
    ensures Mentions(f.Render(), NO_IP) <==> f.NoIp?
    ensures Mentions(f.Render(), NOT_IN_POOL) <==> f.NotInPool?
    ensures Mentions(f.Render(), NOT_ADVERTISED) <==> f.PoolNotAdvertised?
    ensures Mentions(f.Render(), NOT_ESTABLISHED) <==> f.NotEstablished?
  {
    NoPodsExactly(f);
    NoIpExactly(f);
    NotInPoolExactly(f);
    NotAdvertisedExactly(f);
    NotEstablishedExactly(f);
  }

  /** The service a clean-up looks for, when the failure is of a kind it handles. */
  predicate NamesMissingService(f: Failure, live: seq<string>) {
    (f.NoTargetPods? || f.NoIp? || f.NotInPool? || f.PoolNotAdvertised?) && f.svc !in live
  }

  lemma ArgumentIsName(f: Failure, i: nat)
    requires f.WellNamed() && i < |f.Tokens()| && !f.Tokens()[i].Fixed()
    ensures Name(f.Tokens()[i].name)
  {
  }

  lemma PossessiveCut(name: string)
    requires Name(name)
    ensures Before(name + "'s", "'s") == name
  {
    assert name + "'s" + "" == name + "'s";
    BeforeSuffix(name, "'s", "");
  }

  lemma FieldIs(f: Failure, i: nat)
    requires f.WellNamed() && i < |f.Tokens()|
    ensures |Split(f.Render(), ' ')| == |f.Tokens()| && Split(f.Render(), ' ')[i] == Spell(f.Tokens()[i])
  {
    MessageSplits(f);
    assert Spelled(f.Tokens())[i] == Spell(f.Tokens()[i]);
  }

  lemma SecondToken(f: Failure)
    ensures f.NoTargetPods? || f.NoIp? || f.NotInPool? ==> f.Tokens()[1] == Arg(f.svc)
    ensures f.PoolNotAdvertised? ==> f.Tokens()[1] == Poss(f.svc)
  {
  }

  lemma ServiceWord(f: Failure)
    requires f.WellNamed() && (f.NoTargetPods? || f.NoIp? || f.NotInPool?)
    ensures |Split(f.Render(), ' ')| >= 2 && Split(f.Render(), ' ')[1] == f.svc
  {
    FieldIs(f, 1);
    SecondToken(f);
  }

  lemma PossessiveServiceWord(f: Failure)
    requires f.WellNamed() && f.PoolNotAdvertised?
    ensures |Split(f.Render(), ' ')| >= 2 && Before(Split(f.Render(), ' ')[1], "'s") == f.svc
  {
    FieldIs(f, 1);
    SecondToken(f);
    ArgumentIsName(f, 1);
    PossessiveCut(f.svc);
  }

  /** On a printed failure the clean-up's text tests decide exactly whether it is of
      one of the four service kinds and names a service that is not listed. */
  lemma StaleMeaning(f: Failure, live: seq<string>)
    requires f.WellNamed()
    ensures IsStale(f.Render(), live) <==> NamesMissingService(f, live)
  {
    var s := f.Render();
    MentionsExactly(f);
    if f.NoTargetPods? || f.NoIp? || f.NotInPool? {
      ServiceWord(f);
      assert IsStale(s, live) <==> ServiceField(s) !in live;
    } else if f.PoolNotAdvertised? {
      PossessiveServiceWord(f);
      assert IsStale(s, live) <==> Before(ServiceField(s), "'s") !in live;
    }
  }

  /** The positional parse of a not-established message yields the hop and the worker. */
  lemma HopParse(f: Failure)
    requires f.WellNamed() && Mentions(f.Render(), NOT_ESTABLISHED)
    ensures f.NotEstablished?
    ensures var strs := Split(f.Render(), ' ');
            |strs| == 12 && strs[2] == f.hop && Before(strs[9], "'s") == f.node
  {
    MentionsNotEstablished(f);
    FieldIs(f, 2);
    FieldIs(f, 9);
    ArgumentIsName(f, 9);
    PossessiveCut(f.node);
  }
}
