/** The closed registry of organisms, in declaration order, each with its
    (scientific name, taxonomy id) value pair. */
module Registry {
  import opened Outcomes
  import Text

  datatype Organism = Human | Mouse | Alpaca | Cyno | Chicken | Rabbit | Llama

  /** The members in declaration order (iteration order of the enum). */
  const AllOrganisms: seq<Organism> := [Human, Mouse, Alpaca, Cyno, Chicken, Rabbit, Llama]

  /** The member's value pair: (scientific name, taxonomy id). */
  function Value(o: Organism): (string, nat) {
    match o
    case Human => ("Homo sapiens", 9606)
    case Mouse => ("Mus musculus", 10090)
    case Alpaca => ("Vicugna pacos", 30538)
    case Cyno => ("Macaca fascicularis", 9541)
    case Chicken => ("Gallus gallus", 9031)
    case Rabbit => ("Oryctolagus cuniculus", 9986)
    case Llama => ("Lama glama", 9844)
  }

  /** The enum member's name, as `o.name` prints it. */
  function Name(o: Organism): string {
    match o
    case Human => "HUMAN"
    case Mouse => "MOUSE"
    case Alpaca => "ALPACA"
    case Cyno => "CYNO"
    case Chicken => "CHICKEN"
    case Rabbit => "RABBIT"
    case Llama => "LLAMA"
  }

  function ScientificName(o: Organism): string {
    Value(o).0
  }

  /** The `tax_id` property: the second component of the value pair. */
  function TaxId(o: Organism): nat {
    Value(o).1
  }

  /** The registry lists every organism exactly once, Human first. */
  lemma RegistryComplete()
    ensures |AllOrganisms| == 7 && AllOrganisms[0] == Human
    ensures forall o: Organism :: o in AllOrganisms
    ensures forall i, j :: 0 <= i < j < |AllOrganisms| ==> AllOrganisms[i] != AllOrganisms[j]
  {
    forall o: Organism ensures o in AllOrganisms {
      match o
      case Human => assert AllOrganisms[0] == o;
      case Mouse => assert AllOrganisms[1] == o;
      case Alpaca => assert AllOrganisms[2] == o;
      case Cyno => assert AllOrganisms[3] == o;
      case Chicken => assert AllOrganisms[4] == o;
      case Rabbit => assert AllOrganisms[5] == o;
      case Llama => assert AllOrganisms[6] == o;
    }
  }

  /** Taxonomy ids are pairwise distinct, so a taxonomy id names at most one organism. */
  lemma TaxIdInjective(a: Organism, b: Organism)
    ensures TaxId(a) == TaxId(b) <==> a == b
  {
  }

  lemma HumanTaxId()
    ensures TaxId(Human) == 9606
    ensures Text.Decimal(TaxId(Human)) == "9606"
  {
    assert Text.Decimal(9) == "9";
    assert Text.Decimal(96) == Text.Decimal(9) + "6";
    assert Text.Decimal(960) == Text.Decimal(96) + "0";
    assert Text.Decimal(9606) == Text.Decimal(960) + "6";
  }

  /** The first organism, in declaration order, whose printed taxonomy id is `key`. */
  function FindByTaxKey(os: seq<Organism>, key: string): (r: Option<Organism>)
    ensures r.Some? ==> r.value in os && Text.Decimal(TaxId(r.value)) == key
    ensures r.None? ==> forall o :: o in os ==> Text.Decimal(TaxId(o)) != key
  {
    if os == [] then None
    else if Text.Decimal(TaxId(os[0])) == key then Some(os[0])
    else FindByTaxKey(os[1..], key)
  }

  /** `next((o for o in Organism if str(o.tax_id) == key), None)`. */
  function OrganismOfTaxKey(key: string): Option<Organism> {
    FindByTaxKey(AllOrganisms, key)
  }

  /** Looking an organism up by its printed taxonomy id finds that organism, and
      a key finds an organism only when it is that organism's printed id. */
  lemma TaxKeyLookup(o: Organism, key: string)
    ensures OrganismOfTaxKey(key) == Some(o) <==> key == Text.Decimal(TaxId(o))
  {
    var r := OrganismOfTaxKey(key);
    if key == Text.Decimal(TaxId(o)) {
      assert o in AllOrganisms;
      assert r.Some?;
      Text.DecimalInjective(TaxId(r.value), TaxId(o));
      TaxIdInjective(r.value, o);
    }
  }
}
