/** The NCBI gene-page reference picker: given the scraped "Reference sequences"
    part of a gene page, pick a UniProt accession (Swiss-Prot before TrEMBL, first
    item first) or else a RefSeq protein accession from the first item's text. */
module NcbiClient {
  import opened Outcomes
  import Text

  /** A "UniProtKB/..." label in an item: missing, present with no link after it,
      or followed by a link whose (stripped) text is given. */
  datatype Label = Absent | LabelOnly | Linked(text: string)

  /** One <li> of the mRNA-and-protein list. `nonEmpty` stands for the item passing
      the `not item` test. A parsed list item is always truthy, so on a real page every
      item has `nonEmpty` set; the model keeps the falsy branch as the code writes it. */
  datatype RefItem = RefItem(nonEmpty: bool, swissProt: Label, trembl: Label, paragraph: Option<string>)

  /** A fetched gene page, as far as the picker looks at it: whether the request
      succeeded, whether the "gene-reference-sequences" section and an
      "mrnaandproteins..." heading exist, and the items of the list after it. */
  datatype GenePage = GenePage(ok: bool, hasSection: bool, hasHeading: bool, items: seq<RefItem>)

  /** The picker's answer: "" (nothing), ('uniprot', acc) or ('ncbi', acc). */
  datatype RefId = NoRef | UniProtRef(accession: string) | NcbiRef(accession: string)

  /** A truthy answer, the kind that is kept in an ortholog map. */
  type FoundRef = r: RefId | !r.NoRef? witness UniProtRef("")

  const Arrow: char := '→'

  /** Within one item: the Swiss-Prot link if there is one, else the TrEMBL link. */
  function ItemLink(item: RefItem): Option<string> {
    if item.swissProt.Linked? then Some(item.swissProt.text)
    else if item.trembl.Linked? then Some(item.trembl.text)
    else None
  }

  datatype Scan = Found(accession: string) | HitEmptyItem | Exhausted

  /** The ordered scan over the items: the first item with a UniProt link decides,
      and a falsy item met first ends the scan. */
  function ScanItems(items: seq<RefItem>): Scan {
    if items == [] then Exhausted
    else if !items[0].nonEmpty then HitEmptyItem
    else match ItemLink(items[0])
      case Some(acc) => Found(acc)
      case None => ScanItems(items[1..])
  }

  /** `text.split("→")[1].strip().split()[0]`, with the IndexError of the last
      subscript caught; None also when the text has no arrow. */
  function RefSeqToken(text: string): Option<string> {
    if Arrow !in text then None
    else
      var words := Text.Words(Text.Strip(Text.SplitOn(text, Arrow)[1]));
      if words == [] then None else Some(words[0])
  }

  predicate Available(page: GenePage) {
    page.ok && page.hasSection && page.hasHeading
  }

  /** What `get_protein_reference_id` returns for a fetched page. */
  function ReferenceOf(page: GenePage): Result<RefId> {
    if !Available(page) then Ok(NoRef)
    else match ScanItems(page.items)
      case Found(acc) => Ok(UniProtRef(acc))
      case HitEmptyItem => Ok(NoRef)
      case Exhausted =>
        if page.items == [] then Err(NoReferenceItems)
        else match page.items[0].paragraph
          case None => Ok(NoRef)
          case Some(p) =>
            match RefSeqToken(p)
            case None => Ok(NoRef)
            case Some(t) => Ok(NcbiRef(t))
  }

  /** The picker, as the source runs it: a loop over the items with early returns. */
  method GetProteinReferenceId(page: GenePage) returns (r: Result<RefId>)
    ensures r == ReferenceOf(page)
  {
    if !page.ok {
      return Ok(NoRef);
    }
    if !page.hasSection {
      return Ok(NoRef);
    }
    if !page.hasHeading {
      return Ok(NoRef);
    }
    var li := page.items;
    for i := 0 to |li|
      invariant ScanItems(li[i..]) == ScanItems(li)
    {
      var item := li[i];
      assert li[i..][1..] == li[i + 1..];
      if !item.nonEmpty {
        return Ok(NoRef);
      }
      if item.swissProt.Linked? {
        return Ok(UniProtRef(item.swissProt.text));
      }
      if item.trembl.Linked? {
        return Ok(UniProtRef(item.trembl.text));
      }
    }
    if |li| == 0 {
      return Err(NoReferenceItems);
    }
    var p := li[0].paragraph;
    if p.Some? && Arrow in p.value {
      var token := RefSeqToken(p.value);
      if token.Some? {
        return Ok(NcbiRef(token.value));
      }
    }
    return Ok(NoRef);
  }

  // ---------------------------------------------------------------------------
  // Properties of the picker

  /** Items before k are truthy and carry no UniProt link; item k is truthy and its
      link (Swiss-Prot first) is acc. */
  ghost predicate Decides(items: seq<RefItem>, k: int, acc: string) {
    && 0 <= k < |items|
    && (forall j :: 0 <= j < k ==> items[j].nonEmpty && ItemLink(items[j]).None?)
    && items[k].nonEmpty
    && ItemLink(items[k]) == Some(acc)
  }

  /** Within one item Swiss-Prot wins over TrEMBL, and a Swiss-Prot label without a
      link lets the TrEMBL link through. */
  lemma SwissProtBeforeTrembl(item: RefItem)
    ensures item.swissProt.Linked? ==> ItemLink(item) == Some(item.swissProt.text)
    ensures !item.swissProt.Linked? && item.trembl.Linked? ==> ItemLink(item) == Some(item.trembl.text)
    ensures ItemLink(item).None? <==> !item.swissProt.Linked? && !item.trembl.Linked?
  {
  }

  /** The first item with a link decides the scan. */
  lemma {:induction false} ScanFindsDecidingItem(items: seq<RefItem>, k: int, acc: string)
    requires Decides(items, k, acc)
    ensures ScanItems(items) == Found(acc)
    decreases k
  {
    if k > 0 {
      assert Decides(items[1..], k - 1, acc);
      ScanFindsDecidingItem(items[1..], k - 1, acc);
    }
  }

  /** A link found by the scan comes from the first item that has one. */
  lemma {:induction false} ScanFoundHasDecidingItem(items: seq<RefItem>)
    requires ScanItems(items).Found?
    ensures exists k :: Decides(items, k, ScanItems(items).accession)
    decreases |items|
  {
    if ItemLink(items[0]).Some? {
      assert Decides(items, 0, ScanItems(items).accession);
    } else {
      ScanFoundHasDecidingItem(items[1..]);
      var k :| Decides(items[1..], k, ScanItems(items).accession);
      assert forall j :: 1 <= j <= k + 1 ==> items[j] == items[1..][j - 1];
      assert Decides(items, k + 1, ScanItems(items).accession);
    }
  }

  /** A falsy item met before any link stops the scan. */
  lemma {:induction false} ScanStopsAtEmptyItem(items: seq<RefItem>, k: nat)
    requires k < |items| && !items[k].nonEmpty
    requires forall j :: 0 <= j < k ==> items[j].nonEmpty && ItemLink(items[j]).None?
    ensures ScanItems(items) == HitEmptyItem
    decreases k
  {
    if k > 0 {
      ScanStopsAtEmptyItem(items[1..], k - 1);
    }
  }

  /** The scan runs off the end exactly when every item is truthy and has no link. */
  lemma {:induction false} ScanExhaustedIff(items: seq<RefItem>)
    ensures ScanItems(items) == Exhausted <==>
      forall j :: 0 <= j < |items| ==> items[j].nonEmpty && ItemLink(items[j]).None?
    decreases |items|
  {
    if items != [] {
      ScanExhaustedIff(items[1..]);
      assert forall j :: 1 <= j < |items| ==> items[j] == items[1..][j - 1];
    }
  }

  /** A failed request, a missing section or a missing heading gives "". */
  lemma UnavailablePageGivesNothing(page: GenePage)
    requires !page.ok || !page.hasSection || !page.hasHeading
    ensures ReferenceOf(page) == Ok(NoRef)
  {
  }

  /** The answer is ('uniprot', acc) exactly when the page is available and some item
      decides the scan with acc. */
  lemma UniProtAnswerIff(page: GenePage, acc: string)
    ensures ReferenceOf(page) == Ok(UniProtRef(acc)) <==>
      Available(page) && exists k :: Decides(page.items, k, acc)
  {
    if Available(page) && exists k :: Decides(page.items, k, acc) {
      var k :| Decides(page.items, k, acc);
      ScanFindsDecidingItem(page.items, k, acc);
    }
    if ReferenceOf(page) == Ok(UniProtRef(acc)) {
      ScanFoundHasDecidingItem(page.items);
    }
  }

  /** An earlier item's TrEMBL link beats a later item's Swiss-Prot link. */
  lemma EarlierTremblBeatsLaterSwissProt(page: GenePage, i: nat, j: nat, t: string)
    requires Available(page) && i < j < |page.items|
    requires forall m :: 0 <= m < i ==> page.items[m].nonEmpty && ItemLink(page.items[m]).None?
    requires page.items[i].nonEmpty && !page.items[i].swissProt.Linked? && page.items[i].trembl == Linked(t)
    requires page.items[j].swissProt.Linked?
    ensures ReferenceOf(page) == Ok(UniProtRef(t))
  {
    assert Decides(page.items, i, t);
    ScanFindsDecidingItem(page.items, i, t);
  }

  /** A falsy item before any link ends the scan with "", even if later items have links. */
  lemma EmptyItemGivesNothing(page: GenePage, k: nat)
    requires Available(page) && k < |page.items| && !page.items[k].nonEmpty
    requires forall j :: 0 <= j < k ==> page.items[j].nonEmpty && ItemLink(page.items[j]).None?
    ensures ReferenceOf(page) == Ok(NoRef)
  {
    ScanStopsAtEmptyItem(page.items, k);
  }

  /** The RefSeq answer ('ncbi', t) comes only when no item has a UniProt link (and
      none is falsy), and t is read from the first item's paragraph alone. */
  lemma RefSeqAnswerIff(page: GenePage, t: string)
    ensures ReferenceOf(page) == Ok(NcbiRef(t)) <==>
      && Available(page)
      && page.items != []
      && (forall j :: 0 <= j < |page.items| ==> page.items[j].nonEmpty && ItemLink(page.items[j]).None?)
      && page.items[0].paragraph.Some?
      && RefSeqToken(page.items[0].paragraph.value) == Some(t)
  {
    ScanExhaustedIff(page.items);
  }

  /** The only exception: an available page whose list has no items (li[0] is read
      outside the try block). */
  lemma FaultIff(page: GenePage)
    ensures ReferenceOf(page).Err? <==> Available(page) && page.items == []
    ensures ReferenceOf(page).Err? ==> ReferenceOf(page).fault == NoReferenceItems
  {
  }

  /** The RefSeq token: None when the paragraph has no arrow or nothing but whitespace
      follows the first arrow (up to the second); otherwise the first maximal
      whitespace-free run of that segment, found right after its leading whitespace,
      and holding no arrow. */
  lemma RefSeqTokenMeaning(text: string)
    ensures RefSeqToken(text).None? <==>
      Arrow !in text || Text.AllSpace(Text.SplitOn(text, Arrow)[1])
    ensures RefSeqToken(text).Some? ==>
      var seg := Text.SplitOn(text, Arrow)[1];
      var t := RefSeqToken(text).value;
      var k := Text.LeadingSpace(seg);
      && t != [] && Text.NoSpace(t) && Arrow !in t
      && Text.AllSpace(seg[..k]) && k + |t| <= |seg| && seg[k..k + |t|] == t
      && (k + |t| == |seg| || Text.IsSpace(seg[k + |t|]))
  {
    if Arrow in text {
      var seg := Text.SplitOn(text, Arrow)[1];
      Text.NoWordIffBlank(seg);
      if !Text.AllSpace(seg) {
        Text.FirstWordOfStrip(seg);
        var t := RefSeqToken(text).value;
        var k := Text.LeadingSpace(seg);
        assert forall i :: 0 <= i < |t| ==> t[i] == seg[k + i];
      }
    }
  }

  /** Where the segment sits: between the first arrow and the next one (or the end). */
  lemma RefSeqSegment(text: string)
    requires Arrow in text
    ensures var ps := Text.SplitOn(text, Arrow); var n := |ps[0]| + 1 + |ps[1]|;
      && Arrow !in ps[0] && Arrow !in ps[1]
      && n <= |text| && text[..n] == ps[0] + [Arrow] + ps[1]
      && (n == |text| || text[n] == Arrow)
  {
    Text.SecondPiece(text, Arrow);
  }
}
