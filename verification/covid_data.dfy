/** The `CovidData` record: one country's case figures. Every field is a
    nullable Java reference, so each is an `Option`. Equality and the hash code
    look at the country name only. */
module CovidModel {
  import opened Wrappers
  import JavaLang

  datatype CovidData = CovidData(
    country: Option<string>,
    totalCases: Option<int>,
    newCases: Option<int>,
    totalDeaths: Option<int>,
    newDeaths: Option<int>,
    totalRecovered: Option<int>,
    activeCases: Option<int>,
    criticalCases: Option<int>,
    lastUpdated: Option<string>)

  /** The record's nine properties, in constructor order. */
  datatype Field =
    | Country | TotalCases | NewCases | TotalDeaths | NewDeaths
    | TotalRecovered | ActiveCases | CriticalCases | LastUpdated
  {
    predicate IsText() {
      this == Country || this == LastUpdated
    }
  }

  /** What a getter returns: a nullable `String` or a nullable `Long`. */
  datatype Value = Text(text: Option<string>) | Count(count: Option<int>)

  /** The Java type of field `f` admits value `v`. */
  predicate Fits(f: Field, v: Value) {
    f.IsText() <==> v.Text?
  }

  /** The getter for field `f`. */
  function Get(d: CovidData, f: Field): (v: Value)
    ensures Fits(f, v)
  {
    match f
    case Country => Text(d.country)
    case TotalCases => Count(d.totalCases)
    case NewCases => Count(d.newCases)
    case TotalDeaths => Count(d.totalDeaths)
    case NewDeaths => Count(d.newDeaths)
    case TotalRecovered => Count(d.totalRecovered)
    case ActiveCases => Count(d.activeCases)
    case CriticalCases => Count(d.criticalCases)
    case LastUpdated => Text(d.lastUpdated)
  }

  /** The setter for field `f`: the matching getter then returns `v` and
      every other getter returns what it returned before. */
  function Set(d: CovidData, f: Field, v: Value): (r: CovidData)
    requires Fits(f, v)
    ensures Get(r, f) == v
    ensures forall g: Field | g != f :: Get(r, g) == Get(d, g)
  {
    match f
    case Country => d.(country := v.text)
    case TotalCases => d.(totalCases := v.count)
    case NewCases => d.(newCases := v.count)
    case TotalDeaths => d.(totalDeaths := v.count)
    case NewDeaths => d.(newDeaths := v.count)
    case TotalRecovered => d.(totalRecovered := v.count)
    case ActiveCases => d.(activeCases := v.count)
    case CriticalCases => d.(criticalCases := v.count)
    case LastUpdated => d.(lastUpdated := v.text)
  }

  /** The no-argument constructor: every getter returns null. */
  function Empty(): (d: CovidData)
    ensures forall f: Field :: Get(d, f) == (if f.IsText() then Text(None) else Count(None))
  {
    CovidData(None, None, None, None, None, None, None, None, None)
  }

  /** The nine-argument constructor stores each argument in its own field. */
  lemma ConstructorStoresArguments(
    country: Option<string>, totalCases: Option<int>, newCases: Option<int>,
    totalDeaths: Option<int>, newDeaths: Option<int>, totalRecovered: Option<int>,
    activeCases: Option<int>, criticalCases: Option<int>, lastUpdated: Option<string>)
    ensures var d := CovidData(country, totalCases, newCases, totalDeaths, newDeaths,
                               totalRecovered, activeCases, criticalCases, lastUpdated);
            && Get(d, Country) == Text(country)
            && Get(d, TotalCases) == Count(totalCases)
            && Get(d, NewCases) == Count(newCases)
            && Get(d, TotalDeaths) == Count(totalDeaths)
            && Get(d, NewDeaths) == Count(newDeaths)
            && Get(d, TotalRecovered) == Count(totalRecovered)
            && Get(d, ActiveCases) == Count(activeCases)
            && Get(d, CriticalCases) == Count(criticalCases)
            && Get(d, LastUpdated) == Text(lastUpdated)
  {
  }

  // ---------------------------------------------------------------------------
  // equals and hashCode

  /** A reference passed to `equals`: null, an object of another class, or a
      `CovidData` object. `id` is the object's identity. */
  datatype Object = Null | OtherClass(id: nat) | Record(id: nat, data: CovidData)

  /** One identity names one object: the receiver (identity `selfId`,
      contents `self`) and the argument `o` cannot disagree about it. */
  predicate SameHeap(selfId: nat, self: CovidData, o: Object) {
    match o
    case Null => true
    case OtherClass(id) => id != selfId
    case Record(id, d) => id == selfId ==> d == self
  }

  /** `CovidData.equals`: the same reference, or another `CovidData` whose
      country is equal (two null countries are equal). */
  function Equals(selfId: nat, self: CovidData, o: Object): (equal: bool)
    ensures o.Null? ==> !equal
    ensures o.Record? && o.data.country == self.country ==> equal
    ensures o.Record? && o.data.country != self.country && o.id != selfId ==> !equal
    ensures o.OtherClass? ==> (equal <==> o.id == selfId)
  {
    match o
    case Null => false
    case OtherClass(id) => id == selfId
    case Record(id, d) => id == selfId || d.country == self.country
  }

  /** `CovidData.hashCode`, i.e. `Objects.hash(country)` = `31 * 1 + h`,
      where `h` is the country's `String.hashCode` or 0 for null. */
  function HashCode(d: CovidData): (h: int)
    ensures JavaLang.InIntRange(h)
    ensures d.country == None ==> h == 31
    ensures d.country.Some? ==> h == JavaLang.Wrap32(31 + JavaLang.StringHashCode(d.country.value))
  {
    var countryHash := match d.country
      case None => 0
      case Some(c) => JavaLang.StringHashCode(c);
    JavaLang.Wrap32(31 + countryHash)
  }

  /** For a country of single-unit chars, the hash code is `31` plus the hash
      polynomial of the country's chars, wrapped once to 32 bits. */
  lemma HashCodeIsPolynomial(d: CovidData)
    requires d.country.Some? && JavaLang.IsBmp(d.country.value)
    ensures HashCode(d) == JavaLang.Wrap32(31 + JavaLang.PolyHash(d.country.value))
  {
    var p := JavaLang.PolyHash(d.country.value);
    JavaLang.StringHashCodeIsWrappedPolynomial(d.country.value);
    JavaLang.Wrap32OfCongruent(31 + JavaLang.Wrap32(p), 31 + p);
  }

  /** The country "USA" hashes to 31 + "USA".hashCode() = 31 + 84323. */
  lemma HashCodeOfUsa()
    ensures HashCode(Empty().(country := Some("USA"))) == 84354
  {
    var usa := "USA";
    assert usa[..2] == "US" && "US"[..1] == "U" && "U"[..0] == [];
    assert JavaLang.PolyHash(usa) == 84323;
    HashCodeIsPolynomial(Empty().(country := Some(usa)));
  }

  /** Outside the reflexive case, `equals` holds exactly for a `CovidData`
      argument with the same country, whatever its other fields. */
  lemma EqualsIffSameCountry(selfId: nat, self: CovidData, o: Object)
    requires SameHeap(selfId, self, o)
    ensures Equals(selfId, self, o) <==> o.Record? && o.data.country == self.country
  {
  }

  /** `equals` is reflexive, null-hostile and, between `CovidData` objects,
      symmetric and transitive. */
  lemma EqualsIsEquivalence(a: nat, da: CovidData, b: nat, db: CovidData, c: nat, dc: CovidData)
    requires SameHeap(a, da, Record(b, db)) && SameHeap(b, db, Record(c, dc)) && SameHeap(a, da, Record(c, dc))
    ensures Equals(a, da, Record(a, da))
    ensures !Equals(a, da, Null)
    ensures Equals(a, da, Record(b, db)) <==> Equals(b, db, Record(a, da))
    ensures Equals(a, da, Record(b, db)) && Equals(b, db, Record(c, dc)) ==> Equals(a, da, Record(c, dc))
  {
  }

  /** Equal records hash equally: the `equals`/`hashCode` contract. */
  lemma HashCodeAgreesWithEquals(selfId: nat, self: CovidData, o: Object)
    requires SameHeap(selfId, self, o)
    requires Equals(selfId, self, o)
    ensures o.Record? && HashCode(o.data) == HashCode(self)
  {
  }

  /** Setting any field but the country changes neither `equals` nor `hashCode`. */
  lemma IdentityIgnoresFigures(selfId: nat, self: CovidData, o: Object, f: Field, v: Value)
    requires f != Country && Fits(f, v)
    ensures HashCode(Set(self, f, v)) == HashCode(self)
    ensures Equals(selfId, Set(self, f, v), o) == Equals(selfId, self, o)
  {
    assert Get(Set(self, f, v), Country) == Get(self, Country);
  }
}
