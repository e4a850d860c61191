/** Conversion of a UniProt annotation payload to GFF3 text: a version line, then
    one tab-separated row of nine columns per feature. No text comes back when the
    payload has no features. */
module Gff {
  import opened Outcomes
  import opened Records
  import Text

  const VersionLine: string := "##gff-version 3"
  const Source: string := "UniProtKB"

  /** `str(location[...]['value'])`: the number, or "None" when it is null. */
  function PositionText(p: Option<int>): (s: string)
    ensures '\t' !in s && '\n' !in s
  {
    match p
    case None => "None"
    case Some(i) =>
      var s := Text.IntStr(i);
      assert forall k :: 0 <= k < |s| ==> s[k] != '\t' && s[k] != '\n';
      s
  }

  /** The nine columns of a feature's row: seqid, source, type, start, end, and
      "." for score, strand and phase, then the description as attributes. */
  function Columns(accession: string, f: Feature): seq<string> {
    [accession, Source, f.featureType, PositionText(f.start), PositionText(f.end), ".", ".", ".", f.description]
  }

  /** A feature's row: the two f-strings appended for it, which together write the
      columns with a tab between each two. */
  function Row(accession: string, f: Feature): string {
    Text.Join(Columns(accession, f), '\t')
  }

  function Rows(accession: string, features: seq<Feature>): (rows: seq<string>)
    ensures |rows| == |features|
    ensures forall i :: 0 <= i < |features| ==> rows[i] == Row(accession, features[i])
  {
    seq(|features|, i requires 0 <= i < |features| => Row(accession, features[i]))
  }

  /** What `_json_to_gff` returns: None (the implicit return) when 'features' is
      missing or empty, otherwise the version line and one line per feature. */
  function GffOf(json: AnnotationJson, accession: string): Option<string> {
    match json.features
    case None => None
    case Some(fs) => if fs == [] then None else Some(Text.Lines([VersionLine] + Rows(accession, fs)))
  }

  /** The conversion as the source runs it, appending to the text feature by feature. */
  method JsonToGff(json: AnnotationJson, accession: string) returns (gff: Option<string>)
    ensures gff == GffOf(json, accession)
  {
    var text := VersionLine + "\n";
    var features := json.features;
    if features.Some? && features.value != [] {
      var fs := features.value;
      var header := [VersionLine];
      var rows := Rows(accession, fs);
      assert text == Text.Lines(header) by {
        assert header[..0] == [] && header + rows[..0] == header;
      }
      for i := 0 to |fs|
        invariant text == Text.Lines(header + rows[..i])
      {
        var f := fs[i];
        Text.LinesExtend(header, rows, i);
        text := text + Row(accession, f) + "\n";
      }
      assert rows[..|fs|] == rows;
      return Some(text);
    }
    return None;
  }

  // ---------------------------------------------------------------------------
  // Properties of the conversion

  /** Text comes back exactly when the payload lists at least one feature. */
  lemma GffPresentIff(json: AnnotationJson, accession: string)
    ensures GffOf(json, accession).Some? <==> json.features.Some? && json.features.value != []
  {
  }

  /** A row reads back as its nine columns, provided the accession, type and
      description hold no tab. */
  lemma RowColumns(accession: string, f: Feature)
    requires '\t' !in accession && '\t' !in f.featureType && '\t' !in f.description
    ensures Text.SplitOn(Row(accession, f), '\t') == Columns(accession, f)
    ensures |Text.SplitOn(Row(accession, f), '\t')| == 9
  {
    var cs := Columns(accession, f);
    assert '\t' !in Source;
    forall i | 0 <= i < |cs| ensures '\t' !in cs[i] {
    }
    Text.SplitJoin(cs, '\t');
  }

  /** The text reads back, line by line, as the version line, one row per feature in
      order, and nothing after the last newline, provided no field holds a newline. */
  lemma GffLines(json: AnnotationJson, accession: string)
    requires GffOf(json, accession).Some?
    requires '\n' !in accession
    requires forall f :: f in json.features.value ==> '\n' !in f.featureType && '\n' !in f.description
    ensures Text.SplitOn(GffOf(json, accession).value, '\n') ==
      [VersionLine] + Rows(accession, json.features.value) + [""]
  {
    var ls := [VersionLine] + Rows(accession, json.features.value);
    LinesHaveNoNewline(accession, json.features.value);
    assert GffOf(json, accession).value + "" == Text.Lines(ls);
    Text.LinesRoundTrip(ls, "");
  }

  lemma LinesHaveNoNewline(accession: string, fs: seq<Feature>)
    requires '\n' !in accession
    requires forall f :: f in fs ==> '\n' !in f.featureType && '\n' !in f.description
    ensures forall i :: 0 <= i < |fs| + 1 ==> '\n' !in ([VersionLine] + Rows(accession, fs))[i]
  {
    var ls := [VersionLine] + Rows(accession, fs);
    forall i | 0 <= i < |ls| ensures '\n' !in ls[i] {
      if i == 0 {
        assert '\n' !in VersionLine;
      } else {
        assert fs[i - 1] in fs;
        RowHasNoNewline(accession, fs[i - 1]);
      }
    }
  }

  lemma RowHasNoNewline(accession: string, f: Feature)
    requires '\n' !in accession && '\n' !in f.featureType && '\n' !in f.description
    ensures '\n' !in Row(accession, f)
  {
    var cs := Columns(accession, f);
    assert '\n' !in Source && '\n' !in ".";
    forall k | 0 <= k < |cs| ensures '\n' !in cs[k] {
    }
    Text.JoinAvoids(cs, '\t', '\n');
  }
}
