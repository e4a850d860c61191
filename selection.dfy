/** The interactive ortholog chooser: a prompt listing the UniRef cluster
    accessions and then the search hits' accessions, one per line, and the
    user's answer stripped and lower-cased. The terminal is the `answer`
    oracle, which maps the prompt shown to the line typed. */
module OrthologSelection {
  import opened Records
  import Text

  const Question: string := "Chosen ortholog: "

  /** The first line of the prompt, without its newline (written in pieces so that
      the verifier can see it holds no newline). */
  function HeaderLine(organism: string): string {
    "Found multiple " + organism + " orthologs." + " Please select the" + " desired ortholog" + " from the following:"
  }

  /** The primary accessions of the search hits, in order. */
  function Accessions(hits: seq<KbRecord>): (accs: seq<string>)
    ensures |accs| == |hits|
    ensures forall i :: 0 <= i < |hits| ==> accs[i] == hits[i].primaryAccession
  {
    seq(|hits|, i requires 0 <= i < |hits| => hits[i].primaryAccession)
  }

  /** The accessions offered, in the order listed: the cluster's, then the search's. */
  function Candidates(unirefAccessions: seq<string>, hits: seq<KbRecord>): seq<string> {
    unirefAccessions + Accessions(hits)
  }

  /** The full text handed to `input`. */
  function Prompt(organism: string, unirefAccessions: seq<string>, hits: seq<KbRecord>): string {
    Text.Lines([HeaderLine(organism)] + Candidates(unirefAccessions, hits)) + Question
  }

  /** The accession the user chose, as returned. */
  function Chosen(organism: string, unirefAccessions: seq<string>, hits: seq<KbRecord>,
                  answer: string -> string): string {
    Text.Lower(Text.Strip(answer(Prompt(organism, unirefAccessions, hits))))
  }

  /** The chooser as the source runs it: the prompt grows one line per accession. */
  method ChooseOrthologSelection(organism: string, unirefAccessions: seq<string>, hits: seq<KbRecord>,
                                 answer: string -> string)
    returns (chosen: string)
    ensures chosen == Chosen(organism, unirefAccessions, hits, answer)
  {
    var header := [HeaderLine(organism)];
    var prompt := HeaderLine(organism) + "\n";
    assert prompt == Text.Lines(header) by {
      assert header[..0] == [];
    }
    for i := 0 to |unirefAccessions|
      invariant prompt == Text.Lines(header + unirefAccessions[..i])
    {
      Text.LinesExtend(header, unirefAccessions, i);
      prompt := prompt + unirefAccessions[i] + "\n";
    }
    assert unirefAccessions[..|unirefAccessions|] == unirefAccessions;
    var listed := header + unirefAccessions;
    var accs := Accessions(hits);
    assert listed + accs[..0] == listed;
    for j := 0 to |hits|
      invariant prompt == Text.Lines(listed + accs[..j])
    {
      Text.LinesExtend(listed, accs, j);
      prompt := prompt + hits[j].primaryAccession + "\n";
    }
    assert accs[..|hits|] == accs;
    assert listed + accs == [HeaderLine(organism)] + Candidates(unirefAccessions, hits);
    chosen := Text.Lower(Text.Strip(answer(prompt + Question)));
  }

  // ---------------------------------------------------------------------------
  // Properties of the chooser

  /** Read line by line, the prompt is the header, every candidate in order, and the
      question, provided no name or accession holds a newline. */
  lemma PromptLines(organism: string, unirefAccessions: seq<string>, hits: seq<KbRecord>)
    requires '\n' !in organism
    requires forall i :: 0 <= i < |unirefAccessions| ==> '\n' !in unirefAccessions[i]
    requires forall i :: 0 <= i < |hits| ==> '\n' !in hits[i].primaryAccession
    ensures Text.SplitOn(Prompt(organism, unirefAccessions, hits), '\n') ==
      [HeaderLine(organism)] + Candidates(unirefAccessions, hits) + [Question]
  {
    var ls := [HeaderLine(organism)] + Candidates(unirefAccessions, hits);
    CandidatesHaveNoNewline(unirefAccessions, hits);
    HeaderHasNoNewline(organism);
    forall i | 0 <= i < |ls| ensures '\n' !in ls[i] {
      if i > 0 {
        assert ls[i] == Candidates(unirefAccessions, hits)[i - 1];
      }
    }
    Text.LinesRoundTrip(ls, Question);
  }

  lemma HeaderHasNoNewline(organism: string)
    requires '\n' !in organism
    ensures '\n' !in HeaderLine(organism)
  {
    assert '\n' !in "Found multiple " && '\n' !in " orthologs.";
    assert '\n' !in " Please select the" && '\n' !in " desired ortholog" && '\n' !in " from the following:";
  }

  lemma CandidatesHaveNoNewline(unirefAccessions: seq<string>, hits: seq<KbRecord>)
    requires forall i :: 0 <= i < |unirefAccessions| ==> '\n' !in unirefAccessions[i]
    requires forall i :: 0 <= i < |hits| ==> '\n' !in hits[i].primaryAccession
    ensures forall i :: 0 <= i < |Candidates(unirefAccessions, hits)| ==> '\n' !in Candidates(unirefAccessions, hits)[i]
  {
    var cs := Candidates(unirefAccessions, hits);
    forall i | 0 <= i < |cs| ensures '\n' !in cs[i] {
      if i >= |unirefAccessions| {
        assert cs[i] == hits[i - |unirefAccessions|].primaryAccession;
      }
    }
  }

  /** The choice depends only on what the user typed: surrounding whitespace and
      upper/lower case of ASCII letters are not significant, and the result holds
      no upper-case ASCII letter. */
  lemma ChosenNormalised(organism: string, unirefAccessions: seq<string>, hits: seq<KbRecord>,
                         answer: string -> string)
    ensures var c := Chosen(organism, unirefAccessions, hits, answer);
      && |c| == |Text.Strip(answer(Prompt(organism, unirefAccessions, hits)))|
      && (forall i :: 0 <= i < |c| ==> !('A' <= c[i] <= 'Z'))
      && (c == [] <==> Text.AllSpace(answer(Prompt(organism, unirefAccessions, hits))))
  {
    var typed := answer(Prompt(organism, unirefAccessions, hits));
    Text.StripEmptyIffBlank(typed);
  }
}
