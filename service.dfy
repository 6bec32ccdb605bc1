/** Services (`src/models/Service.ts`) and their three variants
    (`HaircutService.ts`, `BeardService.ts`, `ColoringService.ts`) as one tagged
    value. Durations are whole minutes, prices whole currency units. */
module Services {
  import opened Wrappers
  import opened Text

  datatype Variant =
    | Haircut(haircutType: string)
    | Beard(includesTrim: bool)
    | Coloring(colorType: string, requiresConsultation: bool)

  datatype Service = Service(name: string, duration: int, price: int, variant: Variant)

  function NameOf(s: Service): (name: string) {
    s.name
  }

  /** The variant constructors: the base fields are stored as given, without the
      setters' validation, so a duration may be zero or negative. */
  function NewHaircut(name: string, duration: int, price: int, haircutType: string := "Standard"): (s: Service)
    ensures s.name == name && s.duration == duration && s.price == price
    ensures s.variant == Haircut(haircutType)
  {
    Service(name, duration, price, Haircut(haircutType))
  }

  function NewBeard(name: string, duration: int, price: int, includesTrim: bool := true): (s: Service)
    ensures s.name == name && s.duration == duration && s.price == price
    ensures s.variant == Beard(includesTrim)
  {
    Service(name, duration, price, Beard(includesTrim))
  }

  function NewColoring(name: string, duration: int, price: int,
                       colorType: string := "Single Color", requiresConsultation: bool := true): (s: Service)
    ensures s.name == name && s.duration == duration && s.price == price
    ensures s.variant == Coloring(colorType, requiresConsultation)
  {
    Service(name, duration, price, Coloring(colorType, requiresConsultation))
  }

  lemma VariantDefaults(name: string, duration: int, price: int)
    ensures NewHaircut(name, duration, price).variant.haircutType == "Standard"
    ensures NewBeard(name, duration, price).variant.includesTrim
    ensures NewColoring(name, duration, price).variant == Coloring("Single Color", true)
    ensures NewHaircut(name, 0, -1).duration == 0 && NewHaircut(name, 0, -1).price == -1
  {
  }

  /** The name setter: rejects a blank value, otherwise stores it trimmed. On
      rejection the caller keeps the unchanged service. */
  function SetName(s: Service, value: string): (r: Result<Service>)
    ensures r.Err? <==> IsBlank(value)
    ensures r.Err? ==> r.error == EmptyName
    ensures r.Ok? ==> Some(r.value.name) == CheckedName(value) && r.value.(name := s.name) == s
  {
    match CheckedName(value)
    case None => Err(EmptyName)
    case Some(n) => Ok(s.(name := n))
  }

  /** The duration setter: rejects values that are not positive. */
  function SetDuration(s: Service, value: int): (r: Result<Service>)
    ensures r.Err? <==> value <= 0
    ensures r.Err? ==> r.error == NonPositiveDuration
    ensures r.Ok? ==> r.value.duration == value > 0 && r.value.(duration := s.duration) == s
  {
    if value <= 0 then Err(NonPositiveDuration) else Ok(s.(duration := value))
  }

  /** The price setter: rejects negative values. */
  function SetPrice(s: Service, value: int): (r: Result<Service>)
    ensures r.Err? <==> value < 0
    ensures r.Err? ==> r.error == NegativePrice
    ensures r.Ok? ==> r.value.price == value >= 0 && r.value.(price := s.price) == s
  {
    if value < 0 then Err(NegativePrice) else Ok(s.(price := value))
  }

  /** `calculateEndTime(startTime)`: the start moved forward by the duration. */
  function CalculateEndTime(s: Service, startTime: int): (t: int)
    ensures t - startTime == s.duration
  {
    startTime + s.duration
  }

  /** Haircuts of 30 minutes or more include a wash. */
  predicate IncludesWash(s: Service)
    requires s.variant.Haircut?
  {
    s.duration >= 30
  }

  predicate RequiresSpecialTools(s: Service)
    requires s.variant.Beard?
  {
    s.variant.includesTrim
  }

  /** A haircut includes a wash exactly when it lasts 30 minutes or more. */
  lemma WashFromThirtyMinutes(name: string, duration: int, price: int, haircutType: string)
    ensures IncludesWash(NewHaircut(name, duration, price, haircutType)) <==> duration >= 30
  {
  }

  /** A beard service needs special tools exactly when it includes a trim. */
  lemma SpecialToolsForTrim(name: string, duration: int, price: int, includesTrim: bool)
    ensures RequiresSpecialTools(NewBeard(name, duration, price, includesTrim)) == includesTrim
  {
  }

  /** The trim label of a beard service's description. */
  function TrimInfo(s: Service): (info: string)
    requires s.variant.Beard?
    ensures info == "with trim" <==> RequiresSpecialTools(s)
    ensures info == "styling only" <==> !RequiresSpecialTools(s)
  {
    if s.variant.includesTrim then "with trim" else "styling only"
  }

  /** The consultation label of a coloring service's description. */
  function ConsultInfo(s: Service): (info: string)
    requires s.variant.Coloring?
    ensures info != "" <==> s.variant.requiresConsultation
  {
    if s.variant.requiresConsultation then "(consultation required)" else ""
  }

  /** 50 when the colour type mentions highlights, in any letter case, else 30. */
  function EstimatedChemicalCost(s: Service): (cost: int)
    requires s.variant.Coloring?
    ensures cost == 30 || cost == 50
    ensures cost == 50 <==> Contains(ToLower(s.variant.colorType), "highlights")
  {
    if Contains(ToLower(s.variant.colorType), "highlights") then 50 else 30
  }

  /** A colour type mentioning highlights, in mixed case, costs 50. */
  lemma HighlightsCostMore()
    ensures EstimatedChemicalCost(NewColoring("Color", 90, 400, "Blonde HighLights")) == 50
  {
    var c := ToLower("Blonde HighLights");
    assert c[7..17] == "highlights";
    assert OccursAt(c, "highlights", 7);
  }

  /** The default colour type costs 30. */
  lemma DefaultColorCostsLess()
    ensures EstimatedChemicalCost(NewColoring("Color", 90, 400)) == 30
  {
    var d := ToLower("Single Color");
    assert d == "single color";
    forall k | 0 <= k <= |d| - 10 ensures !OccursAt(d, "highlights", k) {
      assert d[k] != 'h';
    }
  }
}
