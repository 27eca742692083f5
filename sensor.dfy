/** A model of the Gaspy fuel-price sensor: the value it publishes, the
    attribute dictionary beside it, and the polling step that refreshes both
    from the price list the Gaspy API returns (custom_components/gaspy/sensor.py).

    The API client is not modelled: each polling step receives the result of
    `login()` and the station list of `get_prices()` as parameters. Prices are
    integer cents; the published price is "cents / 100" in the source, and two
    such quotients are equal exactly when the cents are. */
module GaspySensor {

  /** One station record of the API's price list. */
  datatype Station = Station(
    price: int,            // current_price, in cents
    fuelTypeName: string,  // fuel_type_name
    stationName: string,   // station_name
    distance: real,        // distance, copied as reported
    dateUpdated: string    // date_updated, an opaque timestamp
  )

  /** The sensor's published value. */
  datatype Reading =
    | Blank             // the empty string a new sensor starts with
    | NoPrices          // the string "None", published when the list is empty
    | Price(cents: int) // a price, in cents

  /** A value of the attribute dictionary. */
  datatype AttrValue = Text(text: string) | Number(value: real)

  const FuelTypeNameKey: string := "Fuel Type Name"
  const StationNameKey: string := "Station Name"
  const DistanceKey: string := "Distance"
  const LastUpdatedKey: string := "Last Updated"

  /** The only keys the sensor ever writes into its attributes. */
  const AttributeKeys: set<string> := {FuelTypeNameKey, StationNameKey, DistanceKey, LastUpdatedKey}

  /** The whole published state of a sensor, as a value. */
  datatype Published = Published(reading: Reading, attributes: map<string, AttrValue>)

  /** What a freshly constructed sensor publishes. */
  const Initial: Published := Published(Blank, map[])

  /** The four attributes that describe a station. */
  function Describe(st: Station): (m: map<string, AttrValue>)
    ensures m.Keys == AttributeKeys
    ensures m[FuelTypeNameKey] == Text(st.fuelTypeName) && m[StationNameKey] == Text(st.stationName)
    ensures m[DistanceKey] == Number(st.distance) && m[LastUpdatedKey] == Text(st.dateUpdated)
  {
    map[FuelTypeNameKey := Text(st.fuelTypeName), StationNameKey := Text(st.stationName),
        DistanceKey := Number(st.distance), LastUpdatedKey := Text(st.dateUpdated)]
  }

  /** The shape every published state keeps: the attributes are either empty
      or exactly the four station keys, and a published price always comes
      with the four keys. */
  ghost predicate WellShaped(p: Published) {
    && (p.attributes == map[] || p.attributes.Keys == AttributeKeys)
    && (p.reading.Price? ==> p.attributes.Keys == AttributeKeys)
  }

  /** True when the published value already equals the price of `cents`.
      A string value ("" or "None") never equals a number. */
  predicate Shows(r: Reading, cents: int) {
    r.Price? && r.cents == cents
  }

  /** One polling step, as a function of the state before it: only the first
      station of `data` is looked at. The attributes are updated key by key,
      so the map is merged with the station's four entries. */
  function Step(p: Published, loginOk: bool, data: seq<Station>): (r: Published)
    ensures WellShaped(p) ==> WellShaped(r)
    ensures loginOk && |data| > 0 ==> r.reading == Price(data[0].price)
    ensures r.attributes == p.attributes || (|data| > 0 && r.attributes == p.attributes + Describe(data[0]))
  {
    if !loginOk then p
    else if |data| == 0 then p.(reading := NoPrices)
    else if Shows(p.reading, data[0].price) then p
    else Published(Price(data[0].price), p.attributes + Describe(data[0]))
  }

  /** A login failure changes nothing. */
  lemma LoginFailureKeepsState(p: Published, data: seq<Station>)
    ensures Step(p, false, data) == p
  {
  }

  /** An empty price list publishes "None" and leaves the attributes as they
      were: they are not cleared. */
  lemma EmptyListPublishesNoPrices(p: Published)
    ensures Step(p, true, []) == Published(NoPrices, p.attributes)
  {
  }

  /** When the first station's price is already published, nothing changes,
      whatever that station's name, distance or timestamp. */
  lemma UnchangedPriceKeepsEverything(p: Published, data: seq<Station>)
    requires |data| > 0 && p.reading == Price(data[0].price)
    ensures Step(p, true, data) == p
  {
  }

  /** When the first station's price differs from the published value, that
      price is published and the four attributes describe that station; on a
      well-shaped state no other key is left. */
  lemma NewPriceOverwritesAttributes(p: Published, data: seq<Station>)
    requires |data| > 0 && p.reading != Price(data[0].price)
    ensures Step(p, true, data).reading == Price(data[0].price)
    ensures forall k :: k in AttributeKeys ==> Step(p, true, data).attributes[k] == Describe(data[0])[k]
    ensures WellShaped(p) ==> Step(p, true, data).attributes == Describe(data[0])
  {
  }

  /** Only the first station matters: two lists with the same head (and so any
      reordering of the tail) give the same step. */
  lemma OnlyFirstStationMatters(p: Published, loginOk: bool, d1: seq<Station>, d2: seq<Station>)
    requires |d1| > 0 <==> |d2| > 0
    requires |d1| > 0 ==> d1[0] == d2[0]
    ensures Step(p, loginOk, d1) == Step(p, loginOk, d2)
  {
  }

  /** A sensor that shows no price (the initial "" or the "None" sentinel)
      always takes the first price of a non-empty list, with its attributes. */
  lemma StringValueAlwaysUpdates(p: Published, data: seq<Station>)
    requires !p.reading.Price? && |data| > 0
    requires WellShaped(p)
    ensures Step(p, true, data) == Published(Price(data[0].price), Describe(data[0]))
  {
  }

  /** Repeating a step with the same login result and the same list changes
      nothing after the first one. */
  lemma StepIsIdempotent(p: Published, loginOk: bool, data: seq<Station>)
    ensures Step(Step(p, loginOk, data), loginOk, data) == Step(p, loginOk, data)
  {
  }

  /** The Gaspy fuel-price sensor object. Only the two fields that the
      polling step changes are modelled. */
  class FuelPriceSensor {
    var state: Reading
    var stateAttributes: map<string, AttrValue>

    /** The sensor's invariant: its published state is well-shaped. */
    ghost predicate Valid()
      reads this
    {
      WellShaped(Current())
    }

    /** The published state as a value. */
    function Current(): Published
      reads this
    {
      Published(state, stateAttributes)
    }

    constructor ()
      ensures Valid()
      ensures Current() == Initial
    {
      state := Blank;
      stateAttributes := map[];
    }

    /** The published value, as the host reads it. */
    function State(): (r: Reading)
      reads this
      requires Valid()
      ensures r.Price? ==> stateAttributes.Keys == AttributeKeys
    {
      state
    }

    /** The attribute dictionary, as the host reads it: empty, or exactly the
        four station keys. */
    function ExtraStateAttributes(): (r: map<string, AttrValue>)
      reads this
      requires Valid()
      ensures r == map[] || r.Keys == AttributeKeys
    {
      stateAttributes
    }

    /** One polling cycle. `loginOk` is the result of the API's login and
        `data` the station list of its price request (only asked for when the
        login succeeded). */
    method Update(loginOk: bool, data: seq<Station>)
      requires Valid()
      modifies this
      ensures Valid()
      ensures Current() == Step(old(Current()), loginOk, data)
      ensures !loginOk ==> state == old(state) && stateAttributes == old(stateAttributes)
      ensures loginOk && |data| == 0 ==> state == NoPrices && stateAttributes == old(stateAttributes)
      ensures loginOk && |data| > 0 && old(state) == Price(data[0].price) ==>
                state == old(state) && stateAttributes == old(stateAttributes)
      ensures loginOk && |data| > 0 && old(state) != Price(data[0].price) ==>
                state == Price(data[0].price) && stateAttributes == Describe(data[0])
    {
      if loginOk {
        if |data| > 0 {
          // Every path through the body ends in `break`, so the body runs
          // once, on the first station, and the loop needs no invariant.
          for i := 0 to |data| {
            var station := data[i];
            if state == Price(station.price) {
              break;
            }
            state := Price(station.price);
            stateAttributes := stateAttributes[FuelTypeNameKey := Text(station.fuelTypeName)];
            stateAttributes := stateAttributes[StationNameKey := Text(station.stationName)];
            stateAttributes := stateAttributes[DistanceKey := Number(station.distance)];
            stateAttributes := stateAttributes[LastUpdatedKey := Text(station.dateUpdated)];
            break;
          }
        } else {
          state := NoPrices;
        }
      }
    }
  }
}
