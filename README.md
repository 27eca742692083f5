# Gaspy fuel-price sensor: a Dafny model

This project models the Home Assistant sensor in `custom_components/gaspy/sensor.py`. The sensor polls the Gaspy fuel-price service and publishes the cheapest nearby price, together with four attributes describing the station that offers it. The model covers:

- the sensor's published state: the value `_state` and the dictionary `_state_attributes`, set up by the constructor;
- the host's two getters, `state` and `extra_state_attributes`;
- the polling step `update`, which has three outcomes:
  - a failed login changes nothing;
  - an empty station list publishes the string sentinel `"None"`;
  - a non-empty list is judged by its first record alone. If that record's price is already published, nothing changes. Otherwise the price and the four attributes are overwritten from that record.

Files:

- `sensor.dfy` (module `GaspySensor`) holds the data model and `Step`. `Step` is the polling step as a function of the state before the call. The same file holds the lemmas about one step, and the class `FuelPriceSensor`. That class has the two mutable fields and an `Update` method. `Update` keeps the source's `for station in data: ... break` loop and the key-by-key dictionary writes, and it is proved equal to `Step`.
- `polling.dfy` (module `Polling`) holds `Run`. `Run` is the state after a sequence of polling cycles, as the host's scan-interval timer produces them. The same file has inductive lemmas about such runs.

Modelling choices:

- The API client (`GaspyApi.login`, `get_prices`) is not part of this model. Each cycle gets the login result as `loginOk: bool` and the station list as `data: seq<Station>`.
- The published value is the datatype `Reading`, with three cases:
  - `Blank` is the initial empty string;
  - `NoPrices` is the string `"None"`;
  - `Price(cents)` is a price.
- The API reports `current_price` in cents, and the source publishes `float(current_price) / 100`. The model keeps integer cents. Two published prices are then equal exactly when their cents are equal. A string value never equals a number, so from `Blank` and from `NoPrices` the next price always counts as a change.
- Distance is a `real` and the timestamp a `string`. Both are only copied, never computed on.

An empty list only sets `_state = "None"` (sensor.py:131-133). The old attributes stay, so a stale station description can sit beside the `"None"` value. `EmptyListPublishesNoPrices` states this.

## Model

| member | source | states |
|---|---|---|
| `GaspySensor.Describe` | custom_components/gaspy/sensor.py:124-127 | the station's attributes have exactly the keys "Fuel Type Name", "Station Name", "Distance" and "Last Updated". They hold that station's fuel type, name, distance and update time |
| `GaspySensor.Step` | custom_components/gaspy/sensor.py:108-135 | one polling step keeps the attribute shape invariant. After a successful login with a non-empty list, the published value is the first station's price, whether or not it changed. The attributes are either untouched or merged with the first station's four entries |
| `GaspySensor.LoginFailureKeepsState` | custom_components/gaspy/sensor.py:110-135 | a failed login leaves the value and the attributes exactly as they were |
| `GaspySensor.EmptyListPublishesNoPrices` | custom_components/gaspy/sensor.py:131-133 | an empty list publishes `"None"` and keeps the attributes; it does not clear them |
| `GaspySensor.UnchangedPriceKeepsEverything` | custom_components/gaspy/sensor.py:118-120 | when the first station's price is already published, nothing changes, even if that station's name, distance or timestamp differ (stale attributes are kept) |
| `GaspySensor.NewPriceOverwritesAttributes` | custom_components/gaspy/sensor.py:122-127 | when the first station's price differs from the published value, that price is published. Each of the four keys gets that station's field. On a well-shaped state the attributes are exactly the station's four entries |
| `GaspySensor.OnlyFirstStationMatters` | custom_components/gaspy/sensor.py:117-130 | two lists with the same first station give the same step, so the tail and its order are never looked at |
| `GaspySensor.StringValueAlwaysUpdates` | custom_components/gaspy/sensor.py:119-127 | from the initial `""` or the `"None"` sentinel, a non-empty list always publishes its first price and that station's attributes |
| `GaspySensor.StepIsIdempotent` | custom_components/gaspy/sensor.py:119-130 | repeating a step with the same login result and the same list changes nothing after the first one |
| `GaspySensor.FuelPriceSensor.constructor` | custom_components/gaspy/sensor.py:63-71 | a new sensor publishes the empty string with an empty attribute dictionary, and satisfies the shape invariant |
| `GaspySensor.FuelPriceSensor.State` | custom_components/gaspy/sensor.py:83-86 | the published value; when it is a price, the four attribute keys are present |
| `GaspySensor.FuelPriceSensor.ExtraStateAttributes` | custom_components/gaspy/sensor.py:93-96 | the attribute dictionary is either empty or has exactly the four station keys |
| `GaspySensor.FuelPriceSensor.Update` | custom_components/gaspy/sensor.py:108-135 | the loop with its key-by-key writes yields exactly the state that `Step` gives from the old state, and keeps the invariant. The method's contract also spells out each branch: login failure, empty list, unchanged price, new price |
| `Polling.RunAppend` | custom_components/gaspy/sensor.py:108-135 | polling one batch of cycles and then another equals polling both in order |
| `Polling.RunKeepsShape` | custom_components/gaspy/sensor.py:108-135 | any number of polling cycles keeps the attribute shape invariant |
| `Polling.FromInitialKeepsShape` | custom_components/gaspy/sensor.py:66-67 | after any number of cycles from a new sensor, the attributes are empty or exactly the four station keys |
| `Polling.FailedLoginsAreInvisible` | custom_components/gaspy/sensor.py:110-135 | dropping every cycle whose login failed gives the same published state |
| `Polling.LastKnownValuePersists` | custom_components/gaspy/sensor.py:134-135 | after a stretch of login failures, the sensor still shows its last value and attributes |
| `Polling.PriceComesFromAFetch` | custom_components/gaspy/sensor.py:117-122 | a published price is either the starting one or the first station's price of some cycle with a successful login and a non-empty list |
| `Polling.RepeatedCycleIsIdempotent` | custom_components/gaspy/sensor.py:119-130 | polling n+1 times with the same answers is the same as polling once |

## Left out

- `async_setup_platform` (sensor.py:46-60): registration with Home Assistant and wiring to the host, with no decision logic.
- `PLATFORM_SCHEMA` (sensor.py:36-42): configuration validation by the `voluptuous` library, including float coercion of the maximum distance.
- `GaspyApi.login` and `GaspyApi.get_prices`: the network client is not part of this model. Their results are parameters of `Update`.
- Logging (`_LOGGER`) and the `STARTUP` banner: side effects with no effect on state.
- `SCAN_INTERVAL` and the host's scheduling: `Polling.Run` stands for a sequence of host-triggered calls, with no clock.
- The constant fields and getters `name`, `icon`, `state_class`, `unit_of_measurement` and `unique_id` (sensor.py:64-65, 68-71, 73-81, 88-91, 98-106), and the `_api` field. They are fixed values that no state change touches.
- Float arithmetic in `float(current_price) / 100`: prices are integer cents. The model therefore does not cover prices with a fraction of a cent. It also does not cover the rare case where two different doubles round to the same quotient.
- A response without a `data` key raises `KeyError` before anything changes. A `data` value of `None` is falsy and acts like an empty list. The model takes the list directly.
- Malformed station records: a missing field or a price that does not parse raises an exception partway through the step. That can leave a new `_state` with only some attributes written. The model assumes well-formed records.
