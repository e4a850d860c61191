/** The UniRef ortholog finder: for one target organism, look for a member of the
    human protein's UniRef cluster with that organism's taxonomy id and the human
    recommended name; confirm it against a UniProtKB search (asking the user when
    the two disagree), and fall back to the top search hit when no member matches. */
module UniRefOrthologFinder {
  import opened Outcomes
  import opened Records
  import opened Registry
  import opened OrthologSelection

  /** The UniProt services the finder calls: an entry fetch (`{}` on failure), the
      UniRef cluster listing of an accession (its 'results', empty when missing), and
      a UniProtKB search by (recommended name, gene name, taxonomy id) whose
      'results' list is None when the response lacks it. */
  datatype UniProtService = UniProtService(
    fetch: string -> KbJson,
    cluster: string -> seq<ClusterMember>,
    search: (string, string, int) -> Option<seq<KbRecord>>)

  /** The human gene name and recommended name, read before anything else; a missing
      key is a KeyError. */
  function HumanFields(human: KbJson): (r: Result<(string, string)>)
    ensures r.Ok? <==> human.Record? && human.record.geneName.Some? && human.record.recommendedName.Some?
    ensures r.Err? ==> r.fault == HumanFieldsMissing
  {
    if human.Record? && human.record.geneName.Some? && human.record.recommendedName.Some? then
      Ok((human.record.geneName.value, human.record.recommendedName.value))
    else Err(HumanFieldsMissing)
  }

  /** A cluster member matches an organism when both the taxonomy id and the protein
      name are exactly equal. */
  predicate IsMatch(m: ClusterMember, o: Organism, recName: string) {
    m.organismTaxId == TaxId(o) && m.proteinName == recName
  }

  /** `next((o for o in orthologs if ...), None)`: reading `o.value` of a None entry
      raises before any later entry is tried. */
  function MatchIn(orthologs: seq<Option<Organism>>, m: ClusterMember, recName: string): (r: Result<Option<Organism>>)
    ensures r.Ok? && r.value.Some? ==> Some(r.value.value) in orthologs && IsMatch(m, r.value.value, recName)
    ensures r.Ok? && r.value.None? ==> forall o :: Some(o) in orthologs ==> !IsMatch(m, o, recName)
    ensures r.Err? ==> None in orthologs && r.fault == NoneOrganism
    ensures None !in orthologs ==> r.Ok?
  {
    if orthologs == [] then Ok(None)
    else if orthologs[0].None? then Err(NoneOrganism)
    else if IsMatch(m, orthologs[0].value, recName) then Ok(orthologs[0])
    else MatchIn(orthologs[1..], m, recName)
  }

  /** `list.remove`: the first occurrence goes. */
  function RemoveFirst<T(==)>(xs: seq<T>, x: T): (r: seq<T>)
    ensures |r| == if x in xs then |xs| - 1 else |xs|
    ensures x !in xs ==> r == xs
  {
    if xs == [] then []
    else
      assert xs == [xs[0]] + xs[1..];
      if xs[0] == x then xs[1..]
      else [xs[0]] + RemoveFirst(xs[1..], x)
  }

  /** Entry `i` is the one `next` stops at: every earlier entry is an organism that
      does not match, and entry `i` is either None or a match. */
  predicate DecidesAt(orthologs: seq<Option<Organism>>, m: ClusterMember, recName: string, i: int) {
    0 <= i < |orthologs|
    && (orthologs[i].None? || IsMatch(m, orthologs[i].value, recName))
    && forall j :: 0 <= j < i ==> orthologs[j].Some? && !IsMatch(m, orthologs[j].value, recName)
  }

  /** The search ends at the first entry that is None or matches: a None there raises,
      a match there is the answer, whatever follows. */
  lemma {:induction false} MatchInAt(orthologs: seq<Option<Organism>>, m: ClusterMember, recName: string, i: int)
    requires DecidesAt(orthologs, m, recName, i)
    ensures orthologs[i].None? ==> MatchIn(orthologs, m, recName) == Err(NoneOrganism)
    ensures orthologs[i].Some? ==> MatchIn(orthologs, m, recName) == Ok(orthologs[i])
  {
    if i > 0 {
      assert DecidesAt(orthologs[1..], m, recName, i - 1) by {
        forall j | 0 <= j < i - 1
          ensures orthologs[1..][j].Some? && !IsMatch(m, orthologs[1..][j].value, recName)
        {
          assert orthologs[1..][j] == orthologs[j + 1];
        }
      }
      MatchInAt(orthologs[1..], m, recName, i - 1);
    }
  }

  /** With no None entry and no matching organism the search runs off the end and
      answers None. */
  lemma {:induction false} MatchInNoMatch(orthologs: seq<Option<Organism>>, m: ClusterMember, recName: string)
    requires forall j :: 0 <= j < |orthologs| ==> orthologs[j].Some? && !IsMatch(m, orthologs[j].value, recName)
    ensures MatchIn(orthologs, m, recName) == Ok(None)
  {
    if orthologs != [] {
      assert forall j :: 0 <= j < |orthologs| - 1 ==> orthologs[1..][j] == orthologs[j + 1];
      MatchInNoMatch(orthologs[1..], m, recName);
    }
  }

  /** `list.remove` cuts out exactly the first occurrence and keeps the order of the
      rest. */
  lemma {:induction false} RemoveFirstAt<T>(xs: seq<T>, x: T, i: int)
    requires 0 <= i < |xs| && xs[i] == x
    requires forall j :: 0 <= j < i ==> xs[j] != x
    ensures RemoveFirst(xs, x) == xs[..i] + xs[i + 1..]
  {
    var r := RemoveFirst(xs, x);
    if i == 0 {
      assert r == xs[1..];
    } else {
      var rest := xs[1..];
      forall j | 0 <= j < i - 1
        ensures rest[j] != x
      {
        assert rest[j] == xs[j + 1];
      }
      RemoveFirstAt(rest, x, i - 1);
      assert r == [xs[0]] + RemoveFirst(rest, x);
      assert rest[..i - 1] == xs[1..i];
      assert rest[i..] == xs[i + 1..];
      assert xs[..i] == [xs[0]] + xs[1..i];
    }
  }

  /** `list.remove` takes out one occurrence of a listed value and nothing else. */
  lemma {:induction false} RemoveFirstMultiset<T>(xs: seq<T>, x: T)
    ensures multiset(RemoveFirst(xs, x)) == multiset(xs) - multiset{x}
  {
    if xs != [] {
      assert xs == [xs[0]] + xs[1..];
      if xs[0] != x {
        RemoveFirstMultiset(xs[1..], x);
      }
    }
  }

  /** The data kept for a matching member: its first accession's UniProtKB entry when
      that is also the top search hit, otherwise the entry the user chooses. */
  function MatchedRecord(m: ClusterMember, o: Organism, geneName: string, recName: string,
                         svc: UniProtService, answer: string -> string): Result<KbJson>
  {
    if m.accessions == [] then Err(NoMemberAccession)
    else
      var unirefR := svc.fetch(m.accessions[0]);
      var searchR := svc.search(recName, geneName, TaxId(o));
      if unirefR.Empty? then Err(MemberRecordMissing)
      else if searchR.None? then Err(SearchFailed)
      else if searchR.value == [] then Err(EmptySearch)
      else if unirefR.record.primaryAccession == searchR.value[0].primaryAccession then Ok(unirefR)
      else Ok(svc.fetch(Chosen(Name(o), m.accessions, searchR.value, answer)))
  }

  /** One cluster member's turn: the organism list and data after it. */
  function Visit(m: ClusterMember, orthologs: seq<Option<Organism>>, data: KbJson,
                 geneName: string, recName: string, svc: UniProtService, answer: string -> string)
    : Result<(seq<Option<Organism>>, KbJson)>
  {
    match MatchIn(orthologs, m, recName)
    case Err(f) => Err(f)
    case Ok(None) => Ok((orthologs, data))
    case Ok(Some(o)) =>
      match MatchedRecord(m, o, geneName, recName, svc, answer)
      case Err(f) => Err(f)
      case Ok(d) => Ok((RemoveFirst(orthologs, Some(o)), d))
  }

  /** The pass over the cluster members, from `results` onward, with the current
      `orthologs` list and `data`; it stops once `orthologs` is empty. */
  function Pass(results: seq<ClusterMember>, orthologs: seq<Option<Organism>>, data: KbJson,
                geneName: string, recName: string, svc: UniProtService, answer: string -> string)
    : Result<(seq<Option<Organism>>, KbJson)>
    decreases |results|
  {
    if results == [] then Ok((orthologs, data))
    else match Visit(results[0], orthologs, data, geneName, recName, svc, answer)
      case Err(f) => Err(f)
      case Ok((left, d)) =>
        if left == [] then Ok((left, d))
        else Pass(results[1..], left, d, geneName, recName, svc, answer)
  }

  /** The closing loop: for each organism still listed, the top search hit, if any,
      replaces the data. */
  function Fallback(orthologs: seq<Option<Organism>>, data: KbJson,
                    geneName: string, recName: string, svc: UniProtService): Result<KbJson>
    decreases |orthologs|
  {
    if orthologs == [] then Ok(data)
    else if orthologs[0].None? then Err(NoneOrganism)
    else match svc.search(recName, geneName, TaxId(orthologs[0].value))
      case None => Err(SearchFailed)
      case Some(hits) =>
        Fallback(orthologs[1..], if hits == [] then data else Record(hits[0]), geneName, recName, svc)
  }

  /** What `get_ortholog_ids` returns for a human accession and a target organism
      (None for the key the NCBI pass may add for an unknown taxonomy id). */
  function OrthologIdsOf(proteinId: string, taxon: Option<Organism>, svc: UniProtService,
                         answer: string -> string): Result<KbJson>
  {
    match HumanFields(svc.fetch(proteinId))
    case Err(f) => Err(f)
    case Ok((geneName, recName)) =>
      match Pass(svc.cluster(proteinId), [taxon], Empty, geneName, recName, svc, answer)
      case Err(f) => Err(f)
      case Ok((orthologs, data)) => Fallback(orthologs, data, geneName, recName, svc)
  }

  /** The finder as the source runs it: the human entry, the pass over the cluster
      members, then the closing loop. */
  method GetOrthologIds(proteinId: string, taxon: Option<Organism>, svc: UniProtService,
                        answer: string -> string)
    returns (r: Result<KbJson>)
    ensures r == OrthologIdsOf(proteinId, taxon, svc, answer)
  {
    var humanData := svc.fetch(proteinId);
    var results := svc.cluster(proteinId);
    if humanData.Empty? || humanData.record.geneName.None? || humanData.record.recommendedName.None? {
      return Err(HumanFieldsMissing);
    }
    var proteinName := humanData.record.geneName.value;
    var recName := humanData.record.recommendedName.value;
    var passed := RunPass(results, taxon, proteinName, recName, svc, answer);
    if passed.Err? {
      return Err(passed.fault);
    }
    var (orthologs, data) := passed.value;
    r := RunFallback(orthologs, data, proteinName, recName, svc);
  }

  /** The loop over the cluster members, leaving early once no organism is left. */
  method RunPass(results: seq<ClusterMember>, taxon: Option<Organism>, geneName: string, recName: string,
                 svc: UniProtService, answer: string -> string)
    returns (r: Result<(seq<Option<Organism>>, KbJson)>)
    ensures r == Pass(results, [taxon], Empty, geneName, recName, svc, answer)
  {
    var orthologs := [taxon];
    var data := Empty;
    var i := 0;
    while i < |results|
      invariant 0 <= i <= |results|
      invariant orthologs != []
      invariant Pass(results[i..], orthologs, data, geneName, recName, svc, answer) ==
        Pass(results, [taxon], Empty, geneName, recName, svc, answer)
    {
      var next := RunVisit(results[i], orthologs, data, geneName, recName, svc, answer);
      PassStep(results, i, orthologs, data, geneName, recName, svc, answer);
      if next.Err? {
        return Err(next.fault);
      }
      orthologs, data := next.value.0, next.value.1;
      if orthologs == [] {
        return Ok((orthologs, data));
      }
      i := i + 1;
    }
    return Ok((orthologs, data));
  }

  /** The pass from position i onward is member i's turn, then the pass from i + 1
      unless the organism list has run out. */
  lemma PassStep(results: seq<ClusterMember>, i: nat, orthologs: seq<Option<Organism>>, data: KbJson,
                 geneName: string, recName: string, svc: UniProtService, answer: string -> string)
    requires i < |results|
    ensures Pass(results[i..], orthologs, data, geneName, recName, svc, answer) ==
      match Visit(results[i], orthologs, data, geneName, recName, svc, answer)
      case Err(f) => Err(f)
      case Ok((left, d)) =>
        if left == [] then Ok((left, d))
        else Pass(results[i + 1..], left, d, geneName, recName, svc, answer)
  {
    assert results[i..][0] == results[i] && results[i..][1..] == results[i + 1..];
  }

  /** The body of the loop for one cluster member. */
  method RunVisit(m: ClusterMember, orthologs: seq<Option<Organism>>, data: KbJson,
                  geneName: string, recName: string, svc: UniProtService, answer: string -> string)
    returns (r: Result<(seq<Option<Organism>>, KbJson)>)
    ensures r == Visit(m, orthologs, data, geneName, recName, svc, answer)
  {
    var found := MatchIn(orthologs, m, recName);
    if found.Err? {
      return Err(found.fault);
    }
    if found.value.None? {
      return Ok((orthologs, data));
    }
    var o := found.value.value;
    var d := FetchMatched(m, o, geneName, recName, svc, answer);
    if d.Err? {
      return Err(d.fault);
    }
    return Ok((RemoveFirst(orthologs, Some(o)), d.value));
  }

  /** The work for a matching member: its entry, the search, and the
      user's choice when the two disagree. */
  method FetchMatched(m: ClusterMember, o: Organism, geneName: string, recName: string,
                      svc: UniProtService, answer: string -> string)
    returns (r: Result<KbJson>)
    ensures r == MatchedRecord(m, o, geneName, recName, svc, answer)
  {
    if m.accessions == [] {
      return Err(NoMemberAccession);
    }
    var matchId := m.accessions[0];
    var unirefR := svc.fetch(matchId);
    var searchR := svc.search(recName, geneName, TaxId(o));
    if unirefR.Empty? {
      return Err(MemberRecordMissing);
    }
    if searchR.None? {
      return Err(SearchFailed);
    }
    if searchR.value == [] {
      return Err(EmptySearch);
    }
    if unirefR.record.primaryAccession == searchR.value[0].primaryAccession {
      return Ok(unirefR);
    }
    var chosen := ChooseOrthologSelection(Name(o), m.accessions, searchR.value, answer);
    return Ok(svc.fetch(chosen));
  }

  /** The closing loop over the organisms still listed. */
  method RunFallback(orthologs: seq<Option<Organism>>, data0: KbJson, geneName: string, recName: string,
                     svc: UniProtService)
    returns (r: Result<KbJson>)
    ensures r == Fallback(orthologs, data0, geneName, recName, svc)
  {
    var data := data0;
    for j := 0 to |orthologs|
      invariant Fallback(orthologs[j..], data, geneName, recName, svc) == Fallback(orthologs, data0, geneName, recName, svc)
    {
      assert orthologs[j..][1..] == orthologs[j + 1..];
      var organism := orthologs[j];
      if organism.None? {
        return Err(NoneOrganism);
      }
      var found := svc.search(recName, geneName, TaxId(organism.value));
      if found.None? {
        return Err(SearchFailed);
      }
      if found.value != [] {
        data := Record(found.value[0]);
      }
    }
    return Ok(data);
  }

  // ---------------------------------------------------------------------------
  // The finder for one organism, stated directly

  /** The position of the first cluster member matching the organism, if any. */
  function FirstMatch(results: seq<ClusterMember>, o: Organism, recName: string): (k: Option<nat>)
    ensures k.Some? ==> k.value < |results| && IsMatch(results[k.value], o, recName)
    ensures k.Some? ==> forall j :: 0 <= j < k.value ==> !IsMatch(results[j], o, recName)
    ensures k.None? ==> forall j :: 0 <= j < |results| ==> !IsMatch(results[j], o, recName)
  {
    if results == [] then None
    else if IsMatch(results[0], o, recName) then Some(0)
    else match FirstMatch(results[1..], o, recName)
      case None => None
      case Some(k) => Some(k + 1)
  }

  /** The top search hit for the organism, the whole answer when no member matches. */
  function TopHit(o: Organism, geneName: string, recName: string, svc: UniProtService): Result<KbJson> {
    match svc.search(recName, geneName, TaxId(o))
    case None => Err(SearchFailed)
    case Some(hits) => if hits == [] then Ok(Empty) else Ok(Record(hits[0]))
  }

  /** For an organism: the first matching member decides, and only without one is
      the top search hit used. */
  function Resolved(proteinId: string, o: Organism, svc: UniProtService, answer: string -> string): Result<KbJson> {
    match HumanFields(svc.fetch(proteinId))
    case Err(f) => Err(f)
    case Ok((geneName, recName)) =>
      var results := svc.cluster(proteinId);
      match FirstMatch(results, o, recName)
      case Some(k) => MatchedRecord(results[k], o, geneName, recName, svc, answer)
      case None => TopHit(o, geneName, recName, svc)
  }

  /** With a single organism listed, the pass stops at the first matching member and
      leaves the list untouched when there is none. */
  lemma {:induction false} PassSingle(results: seq<ClusterMember>, o: Organism, geneName: string, recName: string,
                                      svc: UniProtService, answer: string -> string)
    ensures Pass(results, [Some(o)], Empty, geneName, recName, svc, answer) ==
      match FirstMatch(results, o, recName)
      case None => Ok(([Some(o)], Empty))
      case Some(k) =>
        match MatchedRecord(results[k], o, geneName, recName, svc, answer)
        case Err(f) => Err(f)
        case Ok(d) => Ok(([], d))
    decreases |results|
  {
    if results != [] && !IsMatch(results[0], o, recName) {
      PassSingle(results[1..], o, geneName, recName, svc, answer);
    }
  }

  /** The finder, as the source runs it, agrees with the direct statement. */
  lemma OrthologIdsOfOrganism(proteinId: string, o: Organism, svc: UniProtService, answer: string -> string)
    ensures OrthologIdsOf(proteinId, Some(o), svc, answer) == Resolved(proteinId, o, svc, answer)
  {
    var human := HumanFields(svc.fetch(proteinId));
    if human.Ok? {
      var (geneName, recName) := human.value;
      var results := svc.cluster(proteinId);
      PassSingle(results, o, geneName, recName, svc, answer);
      match FirstMatch(results, o, recName)
      case Some(k) =>
        var d := MatchedRecord(results[k], o, geneName, recName, svc, answer);
        if d.Ok? {
          assert Fallback([], d.value, geneName, recName, svc) == Ok(d.value);
        }
      case None =>
        FallbackSingle(o, geneName, recName, svc);
    }
  }

  /** The closing loop over a single organism with no data yet is its top search hit. */
  lemma FallbackSingle(o: Organism, geneName: string, recName: string, svc: UniProtService)
    ensures Fallback([Some(o)], Empty, geneName, recName, svc) == TopHit(o, geneName, recName, svc)
  {
    assert [Some(o)][1..] == [];
  }

  /** The None key (an unknown taxonomy id from the NCBI pass) always raises once the
      human entry has been read, whether or not the cluster lists members. */
  lemma NoneTargetRaises(proteinId: string, svc: UniProtService, answer: string -> string)
    ensures OrthologIdsOf(proteinId, None, svc, answer) ==
      if HumanFields(svc.fetch(proteinId)).Err? then Err(HumanFieldsMissing) else Err(NoneOrganism)
  {
  }

  /** When the matching member's entry is also the top search hit, that entry is the
      answer and the user is not asked: any two answers give the same result. */
  lemma AgreementSkipsChooser(proteinId: string, o: Organism, svc: UniProtService,
                              answer1: string -> string, answer2: string -> string, k: nat)
    requires HumanFields(svc.fetch(proteinId)).Ok?
    requires FirstMatch(svc.cluster(proteinId), o, HumanFields(svc.fetch(proteinId)).value.1) == Some(k)
    requires var m := svc.cluster(proteinId)[k]; var f := HumanFields(svc.fetch(proteinId)).value;
      && m.accessions != [] && svc.fetch(m.accessions[0]).Record?
      && var hits := svc.search(f.1, f.0, TaxId(o));
      && hits.Some? && hits.value != []
      && svc.fetch(m.accessions[0]).record.primaryAccession == hits.value[0].primaryAccession
    ensures OrthologIdsOf(proteinId, Some(o), svc, answer1) == OrthologIdsOf(proteinId, Some(o), svc, answer2)
    ensures OrthologIdsOf(proteinId, Some(o), svc, answer1) == Ok(svc.fetch(svc.cluster(proteinId)[k].accessions[0]))
  {
    OrthologIdsOfOrganism(proteinId, o, svc, answer1);
    OrthologIdsOfOrganism(proteinId, o, svc, answer2);
  }

  /** When they disagree, the answer is the entry of whatever accession the user typed,
      once stripped and lower-cased. */
  lemma DisagreementAsksUser(proteinId: string, o: Organism, svc: UniProtService, answer: string -> string, k: nat)
    requires HumanFields(svc.fetch(proteinId)).Ok?
    requires FirstMatch(svc.cluster(proteinId), o, HumanFields(svc.fetch(proteinId)).value.1) == Some(k)
    requires var m := svc.cluster(proteinId)[k]; var f := HumanFields(svc.fetch(proteinId)).value;
      && m.accessions != [] && svc.fetch(m.accessions[0]).Record?
      && var hits := svc.search(f.1, f.0, TaxId(o));
      && hits.Some? && hits.value != []
      && svc.fetch(m.accessions[0]).record.primaryAccession != hits.value[0].primaryAccession
    ensures var m := svc.cluster(proteinId)[k]; var f := HumanFields(svc.fetch(proteinId)).value;
      OrthologIdsOf(proteinId, Some(o), svc, answer) ==
        Ok(svc.fetch(Chosen(Name(o), m.accessions, svc.search(f.1, f.0, TaxId(o)).value, answer)))
  {
    OrthologIdsOfOrganism(proteinId, o, svc, answer);
    var f := HumanFields(svc.fetch(proteinId)).value;
    var m := svc.cluster(proteinId)[k];
    assert Resolved(proteinId, o, svc, answer) == MatchedRecord(m, o, f.0, f.1, svc, answer);
  }

  /** Without a matching member the answer is the top search hit for the organism, and
      the user is never asked. */
  lemma NoMatchTakesTopHit(proteinId: string, o: Organism, svc: UniProtService, answer: string -> string)
    requires HumanFields(svc.fetch(proteinId)).Ok?
    requires FirstMatch(svc.cluster(proteinId), o, HumanFields(svc.fetch(proteinId)).value.1).None?
    ensures var f := HumanFields(svc.fetch(proteinId)).value;
      OrthologIdsOf(proteinId, Some(o), svc, answer) == TopHit(o, f.0, f.1, svc)
  {
    OrthologIdsOfOrganism(proteinId, o, svc, answer);
  }

  /** On the matching path the top search hit must exist: an empty search raises
      rather than falling back. */
  lemma EmptySearchOnMatchRaises(proteinId: string, o: Organism, svc: UniProtService, answer: string -> string, k: nat)
    requires HumanFields(svc.fetch(proteinId)).Ok?
    requires FirstMatch(svc.cluster(proteinId), o, HumanFields(svc.fetch(proteinId)).value.1) == Some(k)
    requires var m := svc.cluster(proteinId)[k]; var f := HumanFields(svc.fetch(proteinId)).value;
      && m.accessions != [] && svc.fetch(m.accessions[0]).Record?
      && svc.search(f.1, f.0, TaxId(o)) == Some([])
    ensures OrthologIdsOf(proteinId, Some(o), svc, answer) == Err(EmptySearch)
  {
    OrthologIdsOfOrganism(proteinId, o, svc, answer);
  }

  /** An empty answer (`{}`) means one of two things that the caller cannot tell apart:
      no member matched and the search found nothing, or the user's choice could not
      be fetched. */
  lemma EmptyAnswerIff(proteinId: string, o: Organism, svc: UniProtService, answer: string -> string)
    ensures OrthologIdsOf(proteinId, Some(o), svc, answer) == Ok(Empty) <==>
      && HumanFields(svc.fetch(proteinId)).Ok?
      && var f := HumanFields(svc.fetch(proteinId)).value;
      && var results := svc.cluster(proteinId);
      && match FirstMatch(results, o, f.1)
        case None => svc.search(f.1, f.0, TaxId(o)) == Some([])
        case Some(k) =>
          && results[k].accessions != []
          && svc.fetch(results[k].accessions[0]).Record?
          && var hits := svc.search(f.1, f.0, TaxId(o));
          && hits.Some? && hits.value != []
          && svc.fetch(results[k].accessions[0]).record.primaryAccession != hits.value[0].primaryAccession
          && svc.fetch(Chosen(Name(o), results[k].accessions, hits.value, answer)) == Empty
  {
    OrthologIdsOfOrganism(proteinId, o, svc, answer);
    var human := HumanFields(svc.fetch(proteinId));
    if human.Ok? {
      var f := human.value;
      var results := svc.cluster(proteinId);
      match FirstMatch(results, o, f.1)
      case None =>
        assert Resolved(proteinId, o, svc, answer) == TopHit(o, f.0, f.1, svc);
      case Some(k) =>
        assert Resolved(proteinId, o, svc, answer) == MatchedRecord(results[k], o, f.0, f.1, svc, answer);
        MatchedEmptyIff(results[k], o, f.0, f.1, svc, answer);
    }
  }

  /** The matching path answers `{}` only through the user's choice. */
  lemma MatchedEmptyIff(m: ClusterMember, o: Organism, geneName: string, recName: string,
                        svc: UniProtService, answer: string -> string)
    ensures MatchedRecord(m, o, geneName, recName, svc, answer) == Ok(Empty) <==>
      && m.accessions != []
      && svc.fetch(m.accessions[0]).Record?
      && var hits := svc.search(recName, geneName, TaxId(o));
      && hits.Some? && hits.value != []
      && svc.fetch(m.accessions[0]).record.primaryAccession != hits.value[0].primaryAccession
      && svc.fetch(Chosen(Name(o), m.accessions, hits.value, answer)) == Empty
  {
  }
}
