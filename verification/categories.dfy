/** The category labels the application recognises. A bill's category is free
    text; five canonical categories exist, each written with an English and a
    Polish token, and both tokens are treated alike when a category is coloured
    or given its display name. */
module Categories {
  import opened Base

  datatype Canonical = Subscriptions | Utilities | Insurance | RentMortgage | Other

  function EnglishToken(c: Canonical): string {
    match c
    case Subscriptions => "Subscriptions"
    case Utilities => "Utilities"
    case Insurance => "Insurance"
    case RentMortgage => "Rent/Mortgage"
    case Other => "Other"
  }

  function PolishToken(c: Canonical): string {
    match c
    case Subscriptions => "Subskrypcje"
    case Utilities => "Rachunki (Prąd/Gaz)"
    case Insurance => "Ubezpieczenia"
    case RentMortgage => "Czynsz/Kredyt"
    case Other => "Inne"
  }

  /** The canonical category a raw token names, if it names one. */
  function Classify(raw: string): (c: Option<Canonical>)
    ensures c.Some? ==> raw == EnglishToken(c.value) || raw == PolishToken(c.value)
  {
    if raw == "Subscriptions" || raw == "Subskrypcje" then Some(Subscriptions)
    else if raw == "Utilities" || raw == "Rachunki (Prąd/Gaz)" then Some(Utilities)
    else if raw == "Insurance" || raw == "Ubezpieczenia" then Some(Insurance)
    else if raw == "Rent/Mortgage" || raw == "Czynsz/Kredyt" then Some(RentMortgage)
    else if raw == "Other" || raw == "Inne" then Some(Other)
    else None
  }

  /** Both tokens of every canonical category are recognised as that category. */
  lemma ClassifyTokens(c: Canonical)
    ensures Classify(EnglishToken(c)) == Some(c)
    ensures Classify(PolishToken(c)) == Some(c)
  {
  }

  /** The colour resources a category indicator or a chart slice can take. */
  datatype ColorRes = BillSubscriptions | BillUtilities | BillInsurance | BillRent | BillOther

  function CanonicalColor(c: Canonical): ColorRes {
    match c
    case Subscriptions => BillSubscriptions
    case Utilities => BillUtilities
    case Insurance => BillInsurance
    case RentMortgage => BillRent
    case Other => BillOther
  }

  /** The colour of a raw category, as the list row and the chart pick it:
      four token pairs have their own colour, everything else is `BillOther`. */
  function CategoryColor(raw: string): (color: ColorRes)
    ensures Classify(raw).Some? ==> color == CanonicalColor(Classify(raw).value)
    ensures Classify(raw).None? ==> color == BillOther
  {
    if raw == "Subscriptions" || raw == "Subskrypcje" then BillSubscriptions
    else if raw == "Utilities" || raw == "Rachunki (Prąd/Gaz)" then BillUtilities
    else if raw == "Insurance" || raw == "Ubezpieczenia" then BillInsurance
    else if raw == "Rent/Mortgage" || raw == "Czynsz/Kredyt" then BillRent
    else BillOther
  }

  /** The two tokens of a category get the same colour; "Other", "Inne" and
      any unrecognised text all get `BillOther`. */
  lemma CategoryColorTokens(c: Canonical, raw: string)
    ensures CategoryColor(EnglishToken(c)) == CategoryColor(PolishToken(c)) == CanonicalColor(c)
    ensures Classify(raw).None? ==> CategoryColor(raw) == BillOther
    ensures CategoryColor("Other") == CategoryColor("Inne") == BillOther
  {
    ClassifyTokens(c);
  }

  /** What a chart label shows: the translated name of a canonical category,
      or the raw text itself. */
  datatype Label = Localized(category: Canonical) | Verbatim(text: string)

  /** The display name of a raw category. */
  function LocalizedCategoryName(raw: string): (l: Label)
    ensures Classify(raw).Some? ==> l == Localized(Classify(raw).value)
    ensures Classify(raw).None? ==> l == Verbatim(raw)
  {
    if raw == "Subscriptions" || raw == "Subskrypcje" then Localized(Subscriptions)
    else if raw == "Utilities" || raw == "Rachunki (Prąd/Gaz)" then Localized(Utilities)
    else if raw == "Insurance" || raw == "Ubezpieczenia" then Localized(Insurance)
    else if raw == "Rent/Mortgage" || raw == "Czynsz/Kredyt" then Localized(RentMortgage)
    else if raw == "Other" || raw == "Inne" then Localized(Other)
    else Verbatim(raw)
  }

  /** The English and Polish tokens of a category get the same display name. */
  lemma LocalizedNameTokens(c: Canonical)
    ensures LocalizedCategoryName(EnglishToken(c)) == LocalizedCategoryName(PolishToken(c)) == Localized(c)
  {
    ClassifyTokens(c);
  }
}
