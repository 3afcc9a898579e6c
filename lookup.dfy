/**
 * Field selection over the two lookup responses (index.js:75-94).
 *
 * The responses themselves arrive over HTTP; here they are values.  Each
 * field the handler reads is a `Json` value, and each result is the first
 * truthy option of an ordered chain, or a fixed default.
 */
module Lookup {

  import opened Json

  const NotFound := "Not Found"
  const Unknown := "Unknown"

  /** The body of the name lookup; only its `data` member is read. */
  datatype NameResponse = NameResponse(data: Json)

  /** The body of the phone-intelligence lookup, by member name. */
  datatype InfoResponse = InfoResponse(
    carrier: Json,
    location: Json,
    registeredLocation: Json,
    region: Json,
    country: Json,
    countryName: Json)

  /** The four selected values.  Each one is truthy: a non-empty string,
      or an object that the chain let through. */
  datatype Selection = Selection(name: Json, carrier: Json, location: Json, country: Json)

  /** `nameRes.data?.data?.name || "Not Found"` (index.js:75-77). */
  function SelectName(res: NameResponse): Json {
    FirstTruthy([NameOf(res.data)], NotFound)
  }

  /** `carrier?.name || carrier || "Unknown"` (index.js:79-82). */
  function SelectCarrier(info: InfoResponse): Json {
    FirstTruthy([NameOf(info.carrier), info.carrier], Unknown)
  }

  /** `location || registered_location || region || "Unknown"`
      (index.js:84-88). */
  function SelectLocation(info: InfoResponse): Json {
    FirstTruthy([info.location, info.registeredLocation, info.region], Unknown)
  }

  /** `country?.name || country_name || country || "Unknown"`
      (index.js:90-94). */
  function SelectCountry(info: InfoResponse): Json {
    FirstTruthy([NameOf(info.country), info.countryName, info.country], Unknown)
  }

  /** All four selections of one request (index.js:75-94). */
  function Select(res: NameResponse, info: InfoResponse): (r: Selection)
    ensures Truthy(r.name) && Truthy(r.carrier) && Truthy(r.location) && Truthy(r.country)
  {
    Selection(SelectName(res), SelectCarrier(info), SelectLocation(info), SelectCountry(info))
  }

  /** The name is the looked-up `name` member when that is a non-empty
      string or an object, and the "Not Found" sentinel otherwise. */
  lemma SelectNameCases(res: NameResponse)
    ensures var n := NameOf(res.data);
            SelectName(res) == if Truthy(n) then n else Str(NotFound)
  {
  }

  /** When the looked-up name is a string (or missing), the selected name is
      a string: that string if it is non-empty, otherwise "Not Found". */
  lemma SelectNameOfString(res: NameResponse)
    requires !NameOf(res.data).Obj?
    ensures SelectName(res).Str?
    ensures NameOf(res.data).Str? && NameOf(res.data).s != "" ==> SelectName(res) == NameOf(res.data)
    ensures !(NameOf(res.data).Str? && NameOf(res.data).s != "") ==> SelectName(res) == Str(NotFound)
  {
  }

  /** The carrier chain, case by case on the shape of `carrier`.  An object
      whose `name` is missing or empty is itself the selected value. */
  function CarrierByShape(carrier: Json): Json {
    match carrier
    case Obj(n) => if Truthy(n) then n else carrier
    case Str(s) => if s != "" then carrier else Str(Unknown)
    case Absent => Str(Unknown)
  }

  lemma SelectCarrierByShape(info: InfoResponse)
    ensures SelectCarrier(info) == CarrierByShape(info.carrier)
  {
    var options := [NameOf(info.carrier), info.carrier];
    if !Truthy(options[0]) && !Truthy(options[1]) {
      assert NoneTruthy(options);
    }
  }

  /** The country chain, case by case on the shape of `country`.  An object
      without a usable `name` is skipped in favour of `country_name` but is
      still selected when `country_name` is falsy. */
  function CountryByShape(country: Json, countryName: Json): Json {
    if country.Obj? && Truthy(country.name) then country.name
    else if Truthy(countryName) then countryName
    else if Truthy(country) then country
    else Str(Unknown)
  }

  lemma SelectCountryByShape(info: InfoResponse)
    ensures SelectCountry(info) == CountryByShape(info.country, info.countryName)
  {
    var options := [NameOf(info.country), info.countryName, info.country];
    if !Truthy(options[0]) && !Truthy(options[1]) && !Truthy(options[2]) {
      assert NoneTruthy(options);
    }
  }

  /** The location is the first truthy of the three members, in order. */
  lemma SelectLocationInOrder(info: InfoResponse)
    ensures Truthy(info.location) ==> SelectLocation(info) == info.location
    ensures !Truthy(info.location) && Truthy(info.registeredLocation) ==>
              SelectLocation(info) == info.registeredLocation
    ensures !Truthy(info.location) && !Truthy(info.registeredLocation) && Truthy(info.region) ==>
              SelectLocation(info) == info.region
    ensures !Truthy(info.location) && !Truthy(info.registeredLocation) && !Truthy(info.region) ==>
              SelectLocation(info) == Str(Unknown)
  {
    var options := [info.location, info.registeredLocation, info.region];
    if !Truthy(options[0]) && !Truthy(options[1]) && !Truthy(options[2]) {
      assert NoneTruthy(options);
    }
  }

  /** An empty string anywhere in a chain is passed over, as JavaScript's
      `||` does. */
  lemma EmptyCarrierNameFallsThrough()
    ensures SelectCarrier(InfoResponse(Obj(Str("")), Absent, Absent, Absent, Absent, Absent)) == Obj(Str(""))
    ensures SelectCarrier(InfoResponse(Str(""), Absent, Absent, Absent, Absent, Absent)) == Str(Unknown)
  {
    SelectCarrierByShape(InfoResponse(Obj(Str("")), Absent, Absent, Absent, Absent, Absent));
    SelectCarrierByShape(InfoResponse(Str(""), Absent, Absent, Absent, Absent, Absent));
  }
}
