# itom constraint rules, modelled in Dafny

itom is an energy-system and industry optimisation model that writes a
linear program: for every index tuple of every constraint family it calls a
*rule* that either returns one row, skips the index, or raises. The model
exists in three variants that must describe the same problem:

- the hub variant written against pyomo (`itom_hub.py`);
- the same hub variant written against the project's own row builder
  "tinyomo" (`itom_hub_tinyomo.py`), which returns rows as
  `{'lhs': [(coef, labels)], 'rhs', 'sense'}`;
- the older variant without transport hubs (`itom.py`).

On top of these come the retrofit rules R1–R3, the impurity limit IP1, the
generator of the transport-network input tables, and a console colouring
helper.

This project models each rule as a pure function from an instance (sets and
parameter tables with their declared defaults) to an `Outcome`: `Emit(row)`,
`Skip` (pyomo's `Constraint.Skip`, tinyomo's `None`) or `Fail(error)` (the
exception the Python code raises). A row is given meaning by a valuation of
the LP columns. `Satisfied` and `RelSatisfied` say when a tinyomo record or a
pyomo relation holds. Every rule's contract states:

- when it emits, skips and raises;
- which columns the row mentions;
- which valuations satisfy it, written as the equation or bound the rule's
  docstring describes.

Lemmas then relate the variants to each other:

- `Agree`: the same skip, the same exception, or rows satisfied by exactly
  the same valuations;
- where the variants differ, a lemma exhibits the input that separates them.

Modules:

| module | file | what it models |
|---|---|---|
| `Basics` | basics.dfy | list comprehensions, filters, `sum`, `min`/`max` |
| `ModelData` | data.dfy | sets, parameter tables with defaults, columns' index helpers, relevant locations and technologies |
| `Linear` | linear.dfy | tinyomo records, pyomo relations, their valuation semantics and builders |
| `Network` | network.dfy | routed links, arrivals and departures, link capacities |
| `Horizon` | horizon.dfy | horizon arithmetic and SV1's depreciation branch |
| `Accounts` | accounts.dfy | TDC1's cost bookkeeping |
| `HubTinyomo` | hub_tinyomo.dfy | every rule of `itom_hub_tinyomo.py` |
| `HubPyomo` | hub_pyomo.dfy | the rules of `itom_hub.py` that differ from `itom.py` |
| `PyomoCommon` | pyomo_common.dfy | the rules written identically in `itom_hub.py` and `itom.py` |
| `NoHub` | nohub.dfy | the rules of `itom.py` that differ from `itom_hub.py` |
| `Backends` | agreement.dfy | agreement and divergence between the three variants |
| `Retrofit`, `RetrofitTinyomo`, `RetrofitPyomo`, `RetrofitBackends` | retrofit*.dfy | R1–R3 in both backends |
| `Impurities` | impurities.dfy | IP1 in both backends |
| `Topology` | topology.dfy | `_build_transport_params` in `build_input_data.py` |
| `Color` | color.dfy | `helpers/color.py` |

The discount factors use Python's `**` with real exponents. They are modelled
through a parameter `rpow: (real, real) -> real`, about which nothing is
assumed, so a power that can vanish is reported as a possible
`ZeroDivisionError`. CC2's whole-number exponent uses a concrete power `Pow`.
Parameters are real numbers, except TimeStep, which offsets years.

Where the code and its documentation disagree, the model follows the code:

- the tinyomo AAC1 weights locations as pyomo does instead of selecting them;
- TF1a and TF1 differ on one-way links;
- SV1's straight-line coefficient is taken as written, and both readings are
  modelled.

## Model

| member | source | states |
|---|---|---|
| ModelData.Get | src/itom_hub.py:117-186 | A parameter lookup returns the table's entry where one is set and the declared default otherwise; it never fails. |
| ModelData.Defaults | src/itom_hub.py:117-186 | Every parameter carries its declared default: HighMaxDefault for maxima and upper limits, 0 for minima, flags, routes and ratios, 1 for OperationalLife, availability and unit factors, 0.05 for DiscountRate, 1 for DepreciationMethod; the Geography and hub tables start empty. |
| ModelData.RelevantLocation | src/itom_hub.py:451-454 | Raises UnboundLocalError("RelevantLocation") exactly when the technology's hub flag is neither 0 nor 1; otherwise holds exactly the locations whose hub flag equals the technology's. |
| ModelData.RelevantTechnology | src/itom_hub.py:569-572 | Raises UnboundLocalError("RelevantTechnology") exactly when the location's hub flag is neither 0 nor 1; otherwise holds exactly the technologies whose hub flag equals the location's. |
| ModelData.PowZero | src/itom_hub.py:754-764 | A whole power `x ** n` is zero exactly when `x` is zero and `n` is positive, which is when CC2's divisor vanishes. |
| ModelData.ModesOf | src/itom_hub.py:549-561 | Holds exactly the modes with ModeForTechnology(t, m) == 1. |
| ModelData.RoutedModes | src/itom_hub.py:702-712 | Holds exactly the modes with TransportRoute(l, ll, p, m, y) == 1. |
| ModelData.OrdinaryLocations | src/itom_hub.py:576-582 | Holds exactly the locations with HubLocation == 0. |
| ModelData.InRegion | src/itom_hub_tinyomo.py:1181-1204 | Holds exactly the given locations that Geography places in the region (entry 1). |
| ModelData.OutsideRegion | src/itom_hub_tinyomo.py:1181-1204 | Holds exactly the locations whose Geography entry for the region is 0. |
| Horizon.SalvageBranch | src/itom_hub.py:779-789 | Sinking-fund depreciation exactly when the capacity outlives the horizon under method 1 at a positive rate; no salvage exactly when it does not outlive the horizon, or the method is neither 1 nor 2, or method 1 runs at a negative rate; straight-line otherwise. |
| Network.LinksBetween | src/itom_hub.py:702-712 | Holds exactly the links from `a` to `b` over a mode routed for the product and year. |
| Network.Crossings | src/itom_hub_tinyomo.py:1181-1204 | Holds exactly the routed links from a location of one list to a location of the other. |
| Network.Departures | src/itom_hub.py:702-712 | Holds exactly the routed links leaving the location, which TF2 sums. |
| Network.Arrivals | src/itom_hub.py:714-721 | Holds exactly the routed links entering the location, which TF3 and TC1 sum. |
| Network.Flows | src/itom_hub.py:714-721 | One flow column per link, and exactly the flows of the given links. |
| Network.InboundLinks | src/itom_hub.py:723-729 | Holds exactly the routed links between any two locations, in the order the import relation sums them. |
| Network.OutboundLinks | src/itom_hub.py:731-737 | Holds exactly the routed links between any two locations, in the order the export relation sums them. |
| Network.HubArrivals | src/itom_hub.py:862-875 | Holds exactly the arrivals at the location whose origin is a hub. |
| Network.RoutedProducts | src/itom_hub.py:670-700 | Holds exactly the products routed from `l` to `ll` over the mode. |
| Network.PooledLimitUniform | src/itom_hub.py:670-700 | When every routed product has the same capacity, TF1b's mean capacity is that capacity in activity units. |
| Accounts.NetCostSplits | src/itom_hub_tinyomo.py:1620-1640 | TDC1's four per-technology lists, each summed separately, give the summed net cost: operating plus capital plus emission penalty minus salvage. |
| HubTinyomo.CA0 | src/itom_hub_tinyomo.py:699-718 | Raises exactly on a non-flag hub flag; otherwise an equality over NewCapacity and the LocalNewCapacity of exactly the relevant locations with Geography 1. |
| HubTinyomo.CA1 | src/itom_hub_tinyomo.py:720-742 | Never raises; emits exactly when the technology's hub flag matches the location's; satisfied iff accumulated new capacity equals the new capacity of the years still within the local operational life. |
| HubTinyomo.CA2 | src/itom_hub_tinyomo.py:744-761 | Raises exactly on a non-flag hub flag; otherwise an equality over the regional and the relevant local accumulated new capacities. |
| HubTinyomo.CA3 | src/itom_hub_tinyomo.py:763-782 | Emits exactly on a hub match; satisfied iff total capacity is accumulated new capacity plus residual capacity. |
| HubTinyomo.CA4 | src/itom_hub_tinyomo.py:784-802 | Raises exactly on a non-flag hub flag; otherwise an equality over regional and relevant local total capacity. |
| HubTinyomo.CA5 | src/itom_hub_tinyomo.py:804-827 | Emits exactly on a hub match; a `<=` row satisfied iff activity is at most total capacity times availability times the capacity-to-activity factor. |
| HubTinyomo.PB1 | src/itom_hub_tinyomo.py:831-856 | Emits exactly on a hub match for a mode the technology has and a product it makes; satisfied iff production by mode is activity by mode times the output ratio. |
| HubTinyomo.PB2 | src/itom_hub_tinyomo.py:858-880 | Emits exactly on a hub match for a product the technology makes; satisfied iff production equals the sum over the technology's modes. |
| HubTinyomo.PB3 | src/itom_hub_tinyomo.py:882-901 | Raises exactly on a non-flag location hub flag; otherwise an equality over local production and the production of exactly the relevant technologies making the product. |
| HubTinyomo.PB4 | src/itom_hub_tinyomo.py:903-918 | Always emits an equality over regional production and the local production of exactly the ordinary locations. |
| HubTinyomo.PB5 | src/itom_hub_tinyomo.py:928-951 | Emits exactly on a hub match for a mode the technology has and a product it uses; satisfied iff use by mode is activity by mode times the input ratio. |
| HubTinyomo.PB6 | src/itom_hub_tinyomo.py:953-975 | Emits exactly on a hub match for a product the technology uses; satisfied iff use equals the sum over the technology's modes. |
| HubTinyomo.PB7 | src/itom_hub_tinyomo.py:977-995 | Raises exactly on a non-flag location hub flag; otherwise an equality over local use and the use of exactly the relevant technologies consuming the product. |
| HubTinyomo.PB8 | src/itom_hub_tinyomo.py:997-1010 | Always emits an equality over regional use and the local use of exactly the ordinary locations. |
| HubTinyomo.PB9 | src/itom_hub_tinyomo.py:1012-1026 | Always emits; satisfied iff production plus imports minus exports is at least demand. |
| HubTinyomo.TF1a | src/itom_hub_tinyomo.py:1030-1073 | Emits exactly on a single-purpose mode with a capacity other than HighMaxDefault, a forward route and a 0/1 backward route; the bound is the link limit in activity units; the row holds two flows exactly when the link is routed both ways between distinct locations; satisfied iff the forward flow, plus the backward one when routed, stays within the bound. |
| HubTinyomo.TF1b | src/itom_hub_tinyomo.py:1075-1127 | Emits exactly on a multi-purpose mode with some product routed forward; the bound is the mean capacity of those products; satisfied iff all forward and backward flows together stay within it. |
| HubTinyomo.TF2 | src/itom_hub_tinyomo.py:1129-1159 | Always emits; `==` at a hub and `<=` elsewhere; mentions exactly local production and the departing flows; satisfied iff departures compare with production in that sense. |
| HubTinyomo.TF3 | src/itom_hub_tinyomo.py:1161-1179 | Always emits an equality over exactly local use and the arriving flows; satisfied iff arrivals equal use. |
| HubTinyomo.TF4 | src/itom_hub_tinyomo.py:1181-1204 | Always emits an equality whose columns are exactly the import column and the flows entering the region from outside; satisfied iff imports equal their sum. |
| HubTinyomo.TF5 | src/itom_hub_tinyomo.py:1206-1228 | Always emits an equality whose columns are exactly the export column and the flows leaving the region; satisfied iff exports equal their sum. |
| HubTinyomo.BorderFlowCountedOnce | src/itom_hub_tinyomo.py:1181-1228 | When each end of a routed link lies in exactly one region, its flow is in the export row of the origin's region and the import row of the destination's region only, and in neither when both ends share a region. |
| HubTinyomo.CC1 | src/itom_hub_tinyomo.py:1232-1255 | Emits exactly on a hub match; satisfied iff capital investment is capital cost times new capacity. |
| HubTinyomo.CC2 | src/itom_hub_tinyomo.py:1257-1278 | Skips exactly without a hub match; raises ZeroDivisionError exactly when the local discount rate is -1 after the first year; satisfied iff discounted investment is investment divided by `(1 + rate) ** (y - min(YEAR))`. |
| HubTinyomo.CC2FirstYear | src/itom_hub_tinyomo.py:1257-1278 | In the first model year CC2 emits and equates discounted with undiscounted investment. |
| HubTinyomo.CC3 | src/itom_hub_tinyomo.py:1280-1299 | Raises exactly on a non-flag hub flag; otherwise an equality over regional and relevant local discounted investment. |
| HubTinyomo.SV1 | src/itom_hub_tinyomo.py:1303-1353 | As written: never skips; raises ZeroDivisionError exactly when the chosen branch divides by zero; on the annuity (sinking-fund) branch, satisfied iff salvage value is capital cost times new capacity times `1 - ((1+DR)^served - 1)/((1+DR)^OL - 1)`; on the straight-line branch the row does not mention NewCapacity; with no salvage it pins SalvageValue to zero. |
| HubTinyomo.SV1Corrected | src/itom_hub_tinyomo.py:1303-1353 | SV1 with the straight-line coefficient on NewCapacity: raises exactly when SV1 does; straight-line rows are satisfied iff salvage value is capital cost times new capacity times `1 - served/OL`; annuity rows iff it is capital cost times new capacity times the sinking-fund remainder; with no salvage iff it is zero. |
| HubTinyomo.SalvageRow | src/itom_hub_tinyomo.py:1303-1353 | The three SV1 branches over a chosen straight-line column: never skips; raises ZeroDivisionError exactly when the chosen branch's divisor vanishes; annuity rows are satisfied iff salvage value is capital cost times new capacity times the sinking-fund remainder; straight-line rows iff it is capital cost times the chosen column times `1 - served/OL`, and they mention exactly SalvageValue and that column; no-salvage rows iff it is zero. |
| HubTinyomo.SV1StraightLineIgnoresNewCapacity | src/itom_hub_tinyomo.py:1333-1343 | On the straight-line branch with a coefficient other than 1, SV1's row does not mention NewCapacity and forces SalvageValue to 0, while the corrected row mentions NewCapacity. |
| HubTinyomo.DecadeInstance | src/itom_hub_tinyomo.py:1303-1353 | The instance both SV1 findings use, whose model years are 2020 and 2030. |
| HubTinyomo.SV1DecadeWitness | src/itom_hub_tinyomo.py:1333-1343 | On that instance in 2030, SV1 forces the salvage value to zero although the corrected row keeps one sixth of the investment. |
| HubTinyomo.SV1NegativeSalvage | src/itom_hub_tinyomo.py:1333-1343 | On that instance in 2020, SV1's life test counts the capacity as outliving the horizon while the intended test does not, and the corrected straight-line row makes the salvage value negative for any positive new capacity. |
| HubTinyomo.SV1Intended | src/itom_hub_tinyomo.py:1303-1353 | SV1 with the corrected column and the life test the fraction presumes: an equality with right-hand side 0 that raises exactly when its divisor vanishes. |
| HubTinyomo.SV1IntendedBounded | src/itom_hub_tinyomo.py:1303-1353 | Under the intended life test, with non-negative capital cost, steps and new capacity, every satisfying valuation puts the straight-line salvage value between 0 and the investment. |
| HubTinyomo.SV2 | src/itom_hub_tinyomo.py:1355-1375 | Never skips; raises exactly when the horizon-long discount factor vanishes; satisfied iff the discounted salvage value is the salvage value divided by it. |
| HubTinyomo.OC1 | src/itom_hub_tinyomo.py:1379-1402 | Emits exactly on a hub match; satisfied iff variable operating cost is the variable-cost-weighted activity summed over the technology's modes. |
| HubTinyomo.OC2 | src/itom_hub_tinyomo.py:1404-1424 | Emits exactly on a hub match; satisfied iff fixed operating cost is fixed cost times total capacity. |
| HubTinyomo.OC3 | src/itom_hub_tinyomo.py:1426-1443 | Emits exactly on a hub match; satisfied iff operating cost is fixed plus variable operating cost. |
| HubTinyomo.OC4 | src/itom_hub_tinyomo.py:1445-1469 | Skips exactly without a hub match; raises exactly when the discount factor vanishes; satisfied iff discounted operating cost is operating cost divided by it. |
| HubTinyomo.OC5 | src/itom_hub_tinyomo.py:1471-1491 | Raises exactly on a non-flag hub flag; otherwise an equality over regional and relevant local discounted operating cost. |
| HubTinyomo.TC1 | src/itom_hub_tinyomo.py:1495-1562 | Always emits an equality over exactly the local transport cost and the arriving flows; satisfied iff the cost is arrivals weighted by mode cost, plus, at a hub, arrivals from hubs weighted by the inter-regional cost. |
| HubTinyomo.TC2 | src/itom_hub_tinyomo.py:1564-1585 | Never skips; raises exactly when the discount factor vanishes; satisfied iff discounted transport cost is the cost divided by it. |
| HubTinyomo.TC3 | src/itom_hub_tinyomo.py:1587-1602 | Always emits an equality over a region's discounted transport cost for a product and that of exactly its member locations. |
| HubTinyomo.TC4 | src/itom_hub_tinyomo.py:1604-1616 | Always emits; satisfied iff a region's discounted transport cost is its per-product costs summed. |
| HubTinyomo.TDC1 | src/itom_hub_tinyomo.py:1620-1640 | Always emits; satisfied iff total discounted cost is the net cost summed over every technology plus discounted transport cost, whatever the technology index. |
| HubTinyomo.TDC2 | src/itom_hub_tinyomo.py:1642-1654 | Always emits; satisfied iff the model-period cost of a region is its total discounted cost summed over the years. |
| HubTinyomo.Objective | src/itom_hub_tinyomo.py:682-692 | The objective mentions exactly the regions' model-period costs and its value is their sum. |
| HubTinyomo.TCC1 | src/itom_hub_tinyomo.py:1671-1685 | Emits exactly when the maximum is not HighMaxDefault; satisfied iff total capacity is at most it. |
| HubTinyomo.TCC2 | src/itom_hub_tinyomo.py:1687-1701 | Emits exactly when the minimum is not 0; satisfied iff total capacity is at least it. |
| HubTinyomo.NCC1 | src/itom_hub_tinyomo.py:1705-1722 | Emits exactly when the maximum investment is set and the hub flags match; satisfied iff local new capacity is at most it. |
| HubTinyomo.NCC2 | src/itom_hub_tinyomo.py:1724-1742 | Emits exactly when the minimum investment is non-zero and the hub flags match; satisfied iff local new capacity is at least it. |
| HubTinyomo.AAC0 | src/itom_hub_tinyomo.py:1746-1764 | Emits exactly on a hub match; satisfied iff local activity is the activity summed over the technology's modes. |
| HubTinyomo.AAC1 | src/itom_hub_tinyomo.py:1766-1783 | Raises exactly on a non-flag hub flag; otherwise satisfied iff regional activity is the Geography-weighted local activity of every relevant location. |
| HubTinyomo.AAC2 | src/itom_hub_tinyomo.py:1785-1799 | Emits exactly when the upper limit is not HighMaxDefault; satisfied iff activity is at most it. |
| HubTinyomo.AAC3 | src/itom_hub_tinyomo.py:1801-1816 | Emits exactly when the lower limit is not 0; satisfied iff activity is at least it. |
| HubTinyomo.TAC1 | src/itom_hub_tinyomo.py:1827-1840 | Always emits; satisfied iff model-period activity is annual activity summed over the years. |
| HubTinyomo.TAC2 | src/itom_hub_tinyomo.py:1842-1856 | Emits exactly when the upper limit is set; satisfied iff model-period activity is at most it. |
| HubTinyomo.TAC3 | src/itom_hub_tinyomo.py:1858-1872 | Emits exactly when the lower limit is non-zero; satisfied iff model-period activity is at least it. |
| HubTinyomo.E1 | src/itom_hub_tinyomo.py:1876-1912 | Emits exactly on a hub match for a mode the technology has; the activity column appears exactly when the emission ratio is non-zero; satisfied iff emission by mode is the ratio times activity. |
| HubTinyomo.E2 | src/itom_hub_tinyomo.py:1914-1932 | Emits exactly on a hub match; satisfied iff local emission is the emission summed over the modes. |
| HubTinyomo.E3 | src/itom_hub_tinyomo.py:1934-1952 | Raises exactly on a non-flag hub flag; otherwise an equality over regional and relevant local emission. |
| HubTinyomo.E4 | src/itom_hub_tinyomo.py:1954-1968 | Always emits; satisfied iff the penalty is the emission times the penalty rate. |
| HubTinyomo.E5 | src/itom_hub_tinyomo.py:1970-1984 | Always emits; satisfied iff a technology's penalty is summed over the emissions. |
| HubTinyomo.E6 | src/itom_hub_tinyomo.py:1986-2004 | Never skips; raises exactly when the discount factor vanishes; satisfied iff the discounted penalty is the penalty divided by it. |
| HubTinyomo.E7 | src/itom_hub_tinyomo.py:2006-2017 | Always emits; satisfied iff annual emission is summed over the technologies. |
| HubTinyomo.E8 | src/itom_hub_tinyomo.py:2019-2032 | Always emits; satisfied iff model-period emission is annual emission summed over the years plus exogenous emission. |
| HubTinyomo.E9 | src/itom_hub_tinyomo.py:2034-2048 | Emits exactly when the annual limit is set; satisfied iff emission plus exogenous emission stays within it. |
| HubTinyomo.E10 | src/itom_hub_tinyomo.py:2050-2065 | Emits exactly when the model-period limit is set; satisfied iff model-period emission stays within it. |
| HubTinyomo.UnsetLimitsEmitNothing | src/itom_hub_tinyomo.py:1671-1816 | With the declared defaults, every limit rule whose table has no entry for the index skips. |
| HubPyomo.CA0 | src/itom_hub.py:445-455 | Raises exactly on a non-flag hub flag; otherwise satisfied iff regional new capacity is the Geography-weighted local new capacity of the relevant locations. |
| HubPyomo.CA1 | src/itom_hub.py:457-466 | Emits exactly on a hub match; satisfied iff accumulated new capacity sums the years still within the operational life. |
| HubPyomo.CA2 | src/itom_hub.py:468-477 | Raises exactly on a non-flag hub flag; otherwise the weighted regional total of accumulated new capacity. |
| HubPyomo.CA3 | src/itom_hub.py:479-490 | Emits exactly on a hub match; satisfied iff total capacity is accumulated new plus residual capacity. |
| HubPyomo.CA4 | src/itom_hub.py:492-501 | Raises exactly on a non-flag hub flag; otherwise the weighted regional total of total capacity. |
| HubPyomo.CA5 | src/itom_hub.py:503-514 | Emits exactly on a hub match; satisfied iff activity is at most capacity in activity units. |
| HubPyomo.PB1 | src/itom_hub.py:535-547 | Emits exactly on a hub match for a mode the technology has and a product it makes; satisfied iff production by mode is activity times the output ratio. |
| HubPyomo.PB2 | src/itom_hub.py:549-561 | Emits exactly on a hub match for a product made; satisfied iff production sums the modes. |
| HubPyomo.PB3 | src/itom_hub.py:563-574 | Raises exactly on a non-flag location hub flag; otherwise satisfied iff local production sums the relevant producing technologies. |
| HubPyomo.PB4 | src/itom_hub.py:576-582 | Always emits; satisfied iff regional production is the Geography-weighted production of the ordinary locations. |
| HubPyomo.PB5 | src/itom_hub.py:592-604 | Emits exactly on a hub match for a mode the technology has and a product it uses; satisfied iff use by mode is activity times the input ratio. |
| HubPyomo.PB6 | src/itom_hub.py:606-618 | Emits exactly on a hub match for a product used; satisfied iff use sums the modes. |
| HubPyomo.PB7 | src/itom_hub.py:620-630 | Raises exactly on a non-flag location hub flag; otherwise satisfied iff local use sums the relevant consuming technologies. |
| HubPyomo.PB8 | src/itom_hub.py:632-637 | Always emits; satisfied iff regional use is the Geography-weighted use of the ordinary locations. |
| HubPyomo.TF1a | src/itom_hub.py:649-667 | Emits exactly on a single-purpose mode with a capacity other than HighMaxDefault, a forward route and a 0/1 backward route; satisfied iff the forward flow, plus the backward flow when routed, stays within the link limit. |
| HubPyomo.TF1b | src/itom_hub.py:670-700 | Emits exactly on a multi-purpose mode with a product routed forward; satisfied iff forward and backward flows together stay within the mean forward capacity. |
| HubPyomo.TF2 | src/itom_hub.py:702-712 | Always emits; `<=` exactly at an ordinary location and `==` at a hub; satisfied iff departures compare with production in that sense. |
| HubPyomo.CC1 | src/itom_hub.py:741-752 | Emits exactly on a hub match; satisfied iff investment is capital cost times new capacity. |
| HubPyomo.CC2 | src/itom_hub.py:754-764 | Skips exactly without a hub match; raises exactly at rate -1 after the first year; satisfied iff the discounted investment is investment over `(1 + rate) ** (y - min(YEAR))`. |
| HubPyomo.CC3 | src/itom_hub.py:766-775 | Raises exactly on a non-flag hub flag; otherwise the weighted regional total of discounted investment. |
| PyomoCommon.SalvageRel | src/itom_hub.py:779-789 | The three pyomo SV1 branches for a given served-year count: never skips; raises exactly when the chosen branch's divisor vanishes; annuity relations are satisfied iff salvage value is capital cost times new capacity times the sinking-fund remainder; straight-line iff it is capital cost times new capacity times `1 - served/OL`; no-salvage iff it is zero. |
| HubPyomo.SV1 | src/itom_hub.py:779-789 | Never skips; raises exactly when the branch's divisor vanishes; no salvage pins the value to 0; straight-line gives capital cost times new capacity times one minus the served years over the operational life; the annuity branch gives capital cost times new capacity times `1 - ((1+DR)^served - 1)/((1+DR)^OL - 1)`, served counted from `y - TimeStep(y)/2 + 1`. |
| HubPyomo.OC1 | src/itom_hub.py:802-812 | Emits exactly on a hub match; satisfied iff variable cost sums activity times variable cost over the modes. |
| HubPyomo.OC2 | src/itom_hub.py:814-823 | Emits exactly on a hub match; satisfied iff fixed cost is fixed cost rate times total capacity. |
| HubPyomo.OC3 | src/itom_hub.py:825-833 | Emits exactly on a hub match; satisfied iff operating cost is fixed plus variable cost. |
| HubPyomo.OC4 | src/itom_hub.py:835-845 | Skips exactly without a hub match; raises exactly when the discount factor vanishes; otherwise the discounted operating cost. |
| HubPyomo.OC5 | src/itom_hub.py:847-858 | Raises exactly on a non-flag hub flag; otherwise the weighted regional total of discounted operating cost. |
| HubPyomo.TC1 | src/itom_hub.py:862-875 | Always emits; satisfied iff transport cost is arrivals times mode cost, plus, at a hub, arrivals from hubs times the inter-regional cost. |
| HubPyomo.TCC1 | src/itom_hub.py:927-935 | Emits exactly when the maximum is set; satisfied iff total capacity is at most it. |
| HubPyomo.TCC2 | src/itom_hub.py:937-945 | Emits exactly when the minimum is non-zero; satisfied iff total capacity is at least it. |
| HubPyomo.NCC1 | src/itom_hub.py:949-960 | Emits exactly when the maximum investment is set and the hub flags match; satisfied iff new capacity is at most it. |
| HubPyomo.NCC2 | src/itom_hub.py:962-973 | Emits exactly when the minimum investment is non-zero and the hub flags match; satisfied iff new capacity is at least it. |
| HubPyomo.AAC0 | src/itom_hub.py:977-986 | Emits exactly on a hub match; satisfied iff activity sums the modes. |
| HubPyomo.AAC1 | src/itom_hub.py:988-997 | Raises exactly on a non-flag hub flag; otherwise the weighted regional total of activity. |
| HubPyomo.AAC2 | src/itom_hub.py:999-1007 | Emits exactly when the upper limit is set; satisfied iff activity is at most it. |
| HubPyomo.AAC3 | src/itom_hub.py:1009-1017 | Emits exactly when the lower limit is non-zero; satisfied iff activity is at least it. |
| HubPyomo.TAC2 | src/itom_hub.py:1036-1044 | Emits exactly when the upper limit is set; satisfied iff model-period activity is at most it. |
| HubPyomo.TAC3 | src/itom_hub.py:1046-1054 | Emits exactly when the lower limit is non-zero; satisfied iff model-period activity is at least it. |
| HubPyomo.E1 | src/itom_hub.py:1058-1073 | Emits exactly on a hub match for a mode the technology has; satisfied iff emission by mode is the emission ratio times activity by mode. |
| HubPyomo.E2 | src/itom_hub.py:1075-1084 | Emits exactly on a hub match; satisfied iff emission sums the modes. |
| HubPyomo.E3 | src/itom_hub.py:1086-1095 | Raises exactly on a non-flag hub flag; otherwise the weighted regional total of emission. |
| HubPyomo.E9 | src/itom_hub.py:1135-1143 | Emits exactly when the annual limit is set; satisfied iff emission plus exogenous emission stays within it. |
| HubPyomo.E10 | src/itom_hub.py:1145-1154 | Emits exactly when the model-period limit is set; satisfied iff model-period emission stays within it. |
| PyomoCommon.Objective | src/itom_hub.py:432-437 | The objective's value is the regions' model-period costs summed. |
| PyomoCommon.PB9 | src/itom_hub.py:639-645 | Always emits; satisfied iff production plus imports minus exports covers demand. |
| PyomoCommon.TF3 | src/itom_hub.py:714-721 | Always emits; satisfied iff arriving flows equal use. |
| PyomoCommon.TF4 | src/itom_hub.py:723-729 | Always emits; satisfied iff imports are every routed flow weighted by (1 - Geography of origin) times Geography of destination. |
| PyomoCommon.TF5 | src/itom_hub.py:731-737 | Always emits; satisfied iff exports are every routed flow weighted by Geography of origin times (1 - Geography of destination). |
| PyomoCommon.SV2 | src/itom_hub.py:791-798 | Never skips; raises exactly when the horizon-long factor vanishes; otherwise the discounted salvage value. |
| PyomoCommon.TC2 | src/itom_hub.py:878-885 | Never skips; raises exactly when the discount factor vanishes; otherwise the discounted transport cost. |
| PyomoCommon.TC3 | src/itom_hub.py:887-893 | Always emits; satisfied iff a region's discounted transport cost is the Geography-weighted cost of every location. |
| PyomoCommon.TC4 | src/itom_hub.py:895-900 | Always emits; satisfied iff the region's transport cost sums the products. |
| PyomoCommon.TDC1 | src/itom_hub.py:904-910 | Always emits; satisfied iff total discounted cost is the net cost over every technology plus discounted transport cost. |
| PyomoCommon.TDC2 | src/itom_hub.py:912-917 | Always emits; satisfied iff the region's model-period cost sums its yearly cost. |
| PyomoCommon.TDC3 | src/itom_hub.py:919-923 | Always emits; satisfied iff the model-period cost equals the objective's value. |
| PyomoCommon.TAC1 | src/itom_hub.py:1028-1034 | Always emits; satisfied iff model-period activity sums the years. |
| PyomoCommon.E4 | src/itom_hub.py:1097-1102 | Always emits; satisfied iff the penalty is emission times penalty rate. |
| PyomoCommon.E5 | src/itom_hub.py:1104-1109 | Always emits; satisfied iff a technology's penalty sums the emissions. |
| PyomoCommon.E6 | src/itom_hub.py:1111-1118 | Never skips; raises exactly when the discount factor vanishes; otherwise the discounted penalty. |
| PyomoCommon.E7 | src/itom_hub.py:1120-1125 | Always emits; satisfied iff annual emission sums the technologies. |
| PyomoCommon.E8 | src/itom_hub.py:1127-1133 | Always emits; satisfied iff model-period emission sums the years plus exogenous emission. |
| NoHub.CA0 | src/itom.py:430-436 | Always emits; satisfied iff regional new capacity is the Geography-weighted local new capacity of every location. |
| NoHub.CA1 | src/itom.py:438-444 | Always emits; satisfied iff accumulated new capacity sums the years within the operational life. |
| NoHub.CA2 | src/itom.py:446-451 | Always emits the weighted regional total of accumulated new capacity. |
| NoHub.CA3 | src/itom.py:453-461 | Always emits; satisfied iff total capacity is accumulated new plus residual capacity. |
| NoHub.CA4 | src/itom.py:463-468 | Always emits the weighted regional total of total capacity. |
| NoHub.CA5 | src/itom.py:470-478 | Always emits; satisfied iff activity is at most capacity in activity units. |
| NoHub.PB1 | src/itom.py:499-508 | Emits exactly for a mode the technology has and a product it makes; satisfied iff production by mode is activity times output ratio. |
| NoHub.PB2 | src/itom.py:510-519 | Emits exactly for a product the technology makes; satisfied iff production sums the modes. |
| NoHub.Producers | src/itom.py:521-528 | Holds exactly the technologies making the product. |
| NoHub.Consumers | src/itom.py:568-574 | Holds exactly the technologies consuming the product. |
| NoHub.PB3 | src/itom.py:521-528 | Always emits; satisfied iff local production sums every producing technology. |
| NoHub.PB4 | src/itom.py:530-536 | Always emits; satisfied iff regional production is Geography-weighted local production. |
| NoHub.PB5 | src/itom.py:546-555 | Emits exactly for a mode the technology has and a product it uses; satisfied iff use by mode is activity times input ratio. |
| NoHub.PB6 | src/itom.py:557-566 | Emits exactly for a product used; satisfied iff use sums the modes. |
| NoHub.PB7 | src/itom.py:568-574 | Always emits; satisfied iff local use sums every consuming technology. |
| NoHub.PB8 | src/itom.py:576-581 | Always emits; satisfied iff regional use is Geography-weighted local use. |
| NoHub.TF1 | src/itom.py:593-602 | Emits exactly on a forward route, whatever the capacity; satisfied iff forward plus backward flow stays within capacity in activity units. |
| NoHub.TF2 | src/itom.py:604-611 | Always emits; satisfied iff departures are at most production. |
| NoHub.CC1 | src/itom.py:640-648 | Always emits; satisfied iff investment is capital cost times new capacity. |
| NoHub.CC2 | src/itom.py:650-656 | Never skips; raises exactly at rate -1 after the first year; otherwise discounted investment. |
| NoHub.CC3 | src/itom.py:658-663 | Always emits the weighted regional total of discounted investment. |
| NoHub.YearsToLast | src/itom.py:667-677 | The count of years from a model year to the last one, both included, is at least 1. |
| NoHub.SV1 | src/itom.py:667-677 | Never skips; raises exactly when the divisor vanishes; no salvage pins the value to 0; straight-line depreciates over the years from y to the last model year; the annuity branch gives capital cost times new capacity times the sinking-fund remainder, served counted from the start of y's period. |
| NoHub.OC1 | src/itom.py:688-695 | Always emits; satisfied iff variable cost sums activity times variable cost over the modes. |
| NoHub.OC2 | src/itom.py:697-703 | Always emits; satisfied iff fixed cost is fixed cost rate times total capacity. |
| NoHub.OC3 | src/itom.py:705-710 | Always emits; satisfied iff operating cost is fixed plus variable. |
| NoHub.OC4 | src/itom.py:712-719 | Never skips; raises exactly when the discount factor vanishes; otherwise discounted operating cost. |
| NoHub.OC5 | src/itom.py:721-728 | Always emits the weighted regional total of discounted operating cost. |
| NoHub.TC1 | src/itom.py:732-739 | Always emits; satisfied iff transport cost is arrivals weighted by mode cost. |
| NoHub.TCC1 | src/itom.py:790-795 | Always emits, whatever the maximum holds; satisfied iff total capacity is at most it. |
| NoHub.TCC2 | src/itom.py:797-802 | Always emits; satisfied iff total capacity is at least the minimum. |
| NoHub.NCC1 | src/itom.py:806-811 | Always emits; satisfied iff new capacity is at most the maximum investment. |
| NoHub.NCC2 | src/itom.py:813-818 | Always emits; satisfied iff new capacity is at least the minimum investment. |
| NoHub.AAC0 | src/itom.py:822-828 | Always emits; satisfied iff activity sums the modes. |
| NoHub.AAC1 | src/itom.py:830-835 | Always emits the weighted regional total of activity. |
| NoHub.AAC2 | src/itom.py:837-842 | Always emits; satisfied iff activity is at most the upper limit. |
| NoHub.AAC3 | src/itom.py:844-849 | Always emits; satisfied iff activity is at least the lower limit. |
| NoHub.TAC2 | src/itom.py:868-873 | Always emits; satisfied iff model-period activity is at most the upper limit. |
| NoHub.TAC3 | src/itom.py:875-880 | Always emits; satisfied iff model-period activity is at least the lower limit. |
| NoHub.E1 | src/itom.py:884-896 | Emits exactly for a mode the technology has; satisfied iff emission is ratio times activity for a positive ratio and 0 otherwise. |
| NoHub.E2 | src/itom.py:898-904 | Always emits; satisfied iff emission sums the modes. |
| NoHub.E3 | src/itom.py:906-911 | Always emits the weighted regional total of emission. |
| NoHub.E9 | src/itom.py:951-956 | Always emits; satisfied iff emission plus exogenous emission stays within the annual limit. |
| NoHub.E10 | src/itom.py:958-964 | Always emits; satisfied iff model-period emission stays within its limit. |
| Backends.RegionalTotalsAgree | src/itom_hub_tinyomo.py:699-718 | Where Geography is 0/1 over the locations, tinyomo's selected regional total and pyomo's weighted one agree. |
| Backends.RegionalSumSelects | src/itom_hub.py:445-455 | Over 0/1 Geography entries, the weighted sum equals the plain sum over the region's members. |
| Backends.RegionalRulesAgree | src/itom_hub_tinyomo.py:699-802 | Where Geography is 0/1, CA0, CA2, CA4, CC3, OC5 and E3 agree between tinyomo and pyomo. |
| Backends.TransportCostByProductAgrees | src/itom_hub_tinyomo.py:1587-1602 | Where Geography is 0/1, TC3 agrees between tinyomo and pyomo. |
| Backends.LocalRulesAgree | src/itom_hub_tinyomo.py:720-1010 | CA1, CA3, CA5, PB1–PB3, PB5–PB7, CC1, OC1–OC3, AAC0, E1 and E2 agree between tinyomo and pyomo on every instance. |
| Backends.WeightedRulesAgree | src/itom_hub_tinyomo.py:1766-1783 | PB4, PB8 and AAC1 agree between tinyomo and pyomo on every instance. |
| Backends.SinglePurposeLinkAgrees | src/itom_hub_tinyomo.py:1030-1073 | TF1a agrees between tinyomo and pyomo. |
| Backends.MultiPurposeLinkAgrees | src/itom_hub_tinyomo.py:1075-1127 | TF1b agrees between tinyomo and pyomo. |
| Backends.LocationFlowRulesAgree | src/itom_hub_tinyomo.py:1129-1179 | TF2, TF3 and TC1 agree between tinyomo and pyomo. |
| Backends.AccountingRulesAgree | src/itom_hub_tinyomo.py:1012-1026 | PB9, TC4, TDC1, TDC2, TAC1 and E4, E5, E7, E8 agree between tinyomo and pyomo. |
| Backends.DiscountRulesAgree | src/itom_hub_tinyomo.py:1257-1278 | CC2, OC4, TC2, SV2 and E6 agree between tinyomo and pyomo, including when they raise. |
| Backends.LimitRulesAgree | src/itom_hub_tinyomo.py:1671-1872 | The limit rules agree between tinyomo and pyomo, skipping at the same sentinels. |
| Backends.SalvageAgrees | src/itom_hub.py:779-789 | pyomo's SV1 agrees with the corrected tinyomo SV1 on every branch. |
| Backends.EveryLocationRelevant | src/itom_hub.py:451-454 | Without hubs, an ordinary technology's relevant locations are all locations, and every location is ordinary. |
| Backends.EveryTechnologyRelevant | src/itom_hub.py:569-572 | Without hubs, an ordinary location's relevant technologies are all technologies. |
| Backends.HubFreeRegionalRulesAgree | src/itom.py:430-468 | Without hubs, the hub variant's regional totals agree with those of the variant without hubs. |
| Backends.HubFreeLocalRulesAgree | src/itom.py:438-519 | Without hubs, the hub variant's location rules agree with those of the variant without hubs. |
| Backends.HubFreeLocationRulesAgree | src/itom.py:604-611 | Without hubs, PB3, PB7, TF2 and TC1 agree between the variants. |
| Backends.HubFreeDiscountRulesAgree | src/itom.py:650-656 | Without hubs, CC2 and OC4 agree between the variants. |
| Backends.HubFreeEmissionAgrees | src/itom.py:884-896 | E1 agrees between the variants whenever the emission ratio is not negative. |
| Backends.NegativeEmissionRatioDiverges | src/itom.py:884-896 | With a negative emission ratio, E1 differs between the variants. |
| Backends.SetLimitsAgree | src/itom.py:790-849 | Where the limits are set, the limit rules agree between the variants. |
| Backends.SetInvestmentLimitsAgree | src/itom.py:806-818 | Where the investment limits are set and the hub flags match, NCC1 and NCC2 agree between the variants. |
| Backends.UnsetLimitsDiverge | src/itom.py:790-802 | At the sentinel maximum and zero minimum, the hub variant skips while the variant without hubs emits, so TCC1 differs. |
| Backends.OneWayLinkDiverges | src/itom.py:593-602 | On a single-purpose link routed one way, TF1a and TF1 differ. |
| Backends.SalvageYearsAgree | src/itom.py:667-677 | With one-year steps at y and at the last model year, the served-year counts coincide and the two SV1 rules are equal. |
| Retrofit.Remove | src/itom_retrofit_tinyomo.py:135-169 | `list.remove`: raises ValueError exactly when the element is absent; otherwise the result plus that one element is the input as a multiset. |
| Retrofit.RemoveSum | src/itom_retrofit_tinyomo.py:135-169 | Removing a member takes exactly its summand out of a sum. |
| Retrofit.RemoveDistinct | src/itom_retrofit_tinyomo.py:135-169 | In a list without repeats, removing `x` leaves exactly the other members. |
| Retrofit.Sources | src/itom_retrofit_tinyomo.py:135-169 | Holds exactly the technologies the retrofit technology replaces (match value 1). |
| Retrofit.Siblings | src/itom_retrofit_tinyomo.py:135-169 | Every member is a retrofit technology of the technology set. |
| Retrofit.SelfSibling | src/itom_retrofit_tinyomo.py:135-169 | A technology is among its own siblings exactly when it is a retrofit technology with at least one source, so `remove(t)` raises otherwise. |
| Retrofit.Expiring | src/itom_retrofit_tinyomo.py:113-132 | Holds exactly the earlier model years that lie one local operational life before y. |
| Retrofit.ExpiringSingleVintage | src/itom_retrofit_tinyomo.py:113-132 | With distinct years, at most one vintage expires in any year. |
| Retrofit.RetiredResidual | src/itom_retrofit_tinyomo.py:86-110 | R1's right-hand side is never negative, never below the residual drop, and is either 0 or that drop. |
| Retrofit.PeersAndSelf | src/itom_retrofit_tinyomo.py:135-169 | The technology's new capacity plus that of the other siblings is the new capacity of all siblings. |
| RetrofitTinyomo.R1 | src/itom_retrofit_tinyomo.py:86-110 | Never raises; skips exactly at a hub, in the first year, or for a technology not flagged for retrofit; satisfied iff the residual potential equals the retired residual capacity. |
| RetrofitTinyomo.R2 | src/itom_retrofit_tinyomo.py:113-132 | Never raises; skips under R1's conditions; mentions exactly the potential and the new capacity of the expiring years; satisfied iff the potential is their sum. |
| RetrofitTinyomo.R3 | src/itom_retrofit_tinyomo.py:135-169 | Skips exactly at a hub or for a technology with retrofit flag 0; raises ValueError exactly after the first year when the technology is not its own sibling; in the first year fixes new capacity at 0; later the siblings' new capacity stays within 1.1 times the potential. |
| RetrofitPyomo.R1 | src/itom_retrofit.py:54-66 | Never raises; skips exactly in the first year or without retrofit; satisfied iff the residual potential equals the retired residual capacity. |
| RetrofitPyomo.R2 | src/itom_retrofit.py:68-77 | Never raises; skips as R1; satisfied iff the new-capacity potential sums the expiring vintages. |
| RetrofitPyomo.R3 | src/itom_retrofit.py:79-94 | Skips exactly when the retrofit flag is not 1; raises exactly after the first year without a source; otherwise R3's first-year or capped relation. |
| RetrofitPyomo.HubR1 | src/itom_retrofit.py:141-153 | As R1, and also skips exactly at a hub location. |
| RetrofitPyomo.HubR2 | src/itom_retrofit.py:155-164 | As R2, and also skips exactly at a hub location. |
| RetrofitPyomo.HubR3 | src/itom_retrofit.py:166-181 | Skips exactly at a hub or for retrofit flag 0; raises as tinyomo R3; otherwise the same relation. |
| RetrofitPyomo.PotentialColumnsSum | src/itom_retrofit.py:79-94 | The potential's column list sums to the residual plus the new-capacity potential of the sources. |
| RetrofitBackends.RetrofitRulesAgree | src/itom_retrofit_tinyomo.py:86-169 | Tinyomo R1–R3 agree with the hub pyomo R1–R3. |
| RetrofitBackends.OrdinaryLocationRetrofitAgrees | src/itom_retrofit.py:141-181 | Away from hubs the hub pyomo R1 and R2 equal the plain ones, and so does R3 for a 0/1 retrofit flag. |
| RetrofitBackends.FractionalRetrofitFlagDiverges | src/itom_retrofit.py:166-181 | With a retrofit flag outside {0, 1}, the plain R3 skips while the hub R3 does not, and raises after the first year. |
| Impurities.CoProducts | src/itom_impurities_tinyomo.py:68-103 | Holds exactly the other products the technology makes. |
| Impurities.TinyomoIP1 | src/itom_impurities_tinyomo.py:68-103 | Never raises; emits exactly when the technology makes the impurity, has another product, and that first co-product's limit is not HighMaxDefault; satisfied iff the impurity's production is at most the limit times the co-product's; a zero limit leaves only the impurity column. |
| Impurities.PyomoIP1 | src/itom_impurities.py:57-75 | Never raises; emits under the same condition as tinyomo IP1; satisfied iff the impurity's production is at most the limit times the first co-product's. |
| Impurities.ImpurityLimitAgrees | src/itom_impurities.py:112-130 | IP1 agrees between tinyomo and pyomo. |
| Impurities.OnlyMainProductLimitMatters | src/itom_impurities_tinyomo.py:68-103 | Changing any limit other than the first co-product's changes neither backend's IP1. |
| Impurities.LaterZeroLimitIgnored | src/itom_impurities.py:57-75 | A zero limit on a later co-product is ignored when the first co-product's is unset: both backends skip. |
| Topology.HubName | src/helpers/build_input_data.py:52 | A hub's name contains the hub marker. |
| Topology.Sites | src/helpers/build_input_data.py:27 | Holds exactly the locations whose name does not contain the hub marker. |
| Topology.SiteGeography | src/helpers/build_input_data.py:28 | Holds exactly the Geography rows whose location does not contain the hub marker. |
| Topology.Members | src/helpers/build_input_data.py:37 | Holds exactly the locations a Geography row places in the region with entry 1. |
| Topology.SiteLinks | src/helpers/build_input_data.py:41-67 | Every row linking a site with itself and with its region's hub is unbounded and keeps to the hub topology. |
| Topology.SiteRows | src/helpers/build_input_data.py:39-67 | A site has three rows per product and year, all unbounded and through hubs. |
| Topology.RegionRows | src/helpers/build_input_data.py:36-67 | A region has three rows per member site, product and year. |
| Topology.HubPairRows | src/helpers/build_input_data.py:71-82 | Holds exactly the INTER_REG rows from one hub to another for every product and year, and none for one region with itself. |
| Topology.HubRows | src/helpers/build_input_data.py:69-82 | Holds exactly the INTER_REG rows leaving a region's hub. |
| Topology.HubRowsCount | src/helpers/build_input_data.py:69-82 | With distinct regions, a hub has one row per other region, product and year. |
| Topology.SiteModeRows | src/helpers/build_input_data.py:36-67 | Every site row is unbounded and keeps to the hub topology. |
| Topology.InterHubRows | src/helpers/build_input_data.py:69-82 | Holds exactly the INTER_REG rows between the hubs of two distinct regions. |
| Topology.HubModeRows | src/helpers/build_input_data.py:33-82 | With hubs, every generated row is unbounded and keeps to the hub topology. |
| Topology.HubModeLinksOnlyThroughHubs | src/helpers/build_input_data.py:33-82 | With hubs, a row between two non-hub names is a site's ONSITE self-loop. |
| Topology.HubModeLinksEverySite | src/helpers/build_input_data.py:36-67 | With hubs, every member site gets its self-loop and both links with its hub for every product and year. |
| Topology.HubModeLinksEveryHubPair | src/helpers/build_input_data.py:69-82 | With hubs, every ordered pair of distinct regions gets an INTER_REG link for every product and year. |
| Topology.SiteModeRowCount | src/helpers/build_input_data.py:36-67 | Three rows per member site of each region, product and year. |
| Topology.InterHubRowCount | src/helpers/build_input_data.py:69-82 | With distinct regions, one row per ordered pair of distinct regions, product and year. |
| Topology.HubModeRowCount | src/helpers/build_input_data.py:33-82 | With distinct regions, the hub mode generates products × years × (3 × member sites + regions × (regions − 1)) rows. |
| Topology.YearLinks | src/helpers/build_input_data.py:90-111 | One direct row per year, ONSITE for a self-loop and OTHER otherwise. |
| Topology.PairLinks | src/helpers/build_input_data.py:89-111 | One direct row per product and year between two locations. |
| Topology.OriginLinks | src/helpers/build_input_data.py:88-111 | Holds exactly the direct rows leaving a location, one per destination, product and year. |
| Topology.OriginLinksDistinct | src/helpers/build_input_data.py:88-111 | Over distinct lists, the rows leaving a location have no repeats. |
| Topology.DirectModeRows | src/helpers/build_input_data.py:86-111 | Without hubs, every row links two sites directly, ONSITE for a self-loop and OTHER otherwise. |
| Topology.DirectModeLinksEveryPair | src/helpers/build_input_data.py:86-111 | Without hubs, every ordered pair of sites is linked for every product and year. |
| Topology.DirectModeOneRowPerKey | src/helpers/build_input_data.py:86-111 | Over distinct lists, the direct rows have no repeats and number sites² × products × years. |
| Topology.TransportRows | src/helpers/build_input_data.py:33-111 | Every generated row has route 1 and capacity 1e20, and with hubs every row keeps to the hub topology. |
| Topology.GeneratedLinksUnbounded | src/itom_hub.py:649-667 | Once loaded, a generated row makes TF1a skip in both hub backends. |
| Color.StyleParamsWellFormed | src/helpers/color.py:14-37 | Every known style's SGR parameter is two decimal digits. |
| Color.StyleCodes | src/helpers/color.py:39-44 | Succeeds exactly when every keyword names a known style; otherwise raises KeyError for the first unknown one; on success yields one code per keyword, in keyword order. |
| Color.FirstUnknown | src/helpers/color.py:40-44 | The first keyword naming no style, with every earlier one known. |
| Color.Styled | src/helpers/color.py:10-47 | `color`: raises exactly on an unknown style, naming the first; on success starts and ends with the reset code around the text. |
| Color.StyledTwo | src/helpers/color.py:39-47 | Two known styles give reset, their codes in order, the text, and reset. |
| Color.Red | src/helpers/color.py:51-52 | `red` is reset, bold, red foreground, the text, reset. |
| Color.Orange | src/helpers/color.py:54-55 | `orange` is reset, bold, orange foreground, the text, reset. |
| Color.Green | src/helpers/color.py:57-58 | `green` is reset, bold, green foreground, the text, reset. |
| Color.Cyan | src/helpers/color.py:60-61 | `cyan` is reset, bold, cyan foreground, the text, reset. |
| Color.StyledShowsText | src/helpers/color.py:39-47 | For known styles and a text without ESC, a terminal interpreting the control sequences shows exactly the text. |
| Color.StyledLength | src/helpers/color.py:39-47 | The styled text is the text plus 8 characters of reset codes and 5 per style. |
| Color.ValuesIgnored | src/helpers/color.py:40-42 | The keyword values are never read: equal names give equal results. |
| Color.StyleCodesInOrder | src/helpers/color.py:40-42 | Styling with `a` then `b` puts `a`'s codes before `b`'s. |

## Left out

- Reading CSV files, building pyomo or tinyomo model objects, writing LP files, calling the solver, and exporting results are I/O. `load_data`, `build_lp`, `solve_model`, `export_*` and the constructors are not modelled; each rule is modelled for one index tuple.
- In `build_input_data.py`, the CSV reads (lines 22-25) and the data-frame assembly and concatenation with the pipeline tables (lines 113-128) are I/O. The model returns the generated rows as a list, and `Loaded` states that an instance's tables hold them.
- Floating point: parameters are exact reals. `1 + 0.1` in R3 is the exact 1.1, the sentinel `1e20` is an exact real, and float rounding is not modelled.
- Python's `**` with a real exponent is a parameter `rpow` with no properties. A discount factor is therefore only known to be non-zero where the contract says so, and the annuity branch of SV1 (HubTinyomo.SV1, SV1Corrected, HubPyomo.SV1, NoHub.SV1) is stated through `rpow` values, with no closed form and no monotonicity.
- HubTinyomo.SV1IntendedBounded: proves the bound for the straight-line and no-salvage branches only, because the annuity bound needs monotonicity of `rpow`, which is a parameter.
- pyomo's check that an index belongs to its declared set is not modelled: a parameter lookup outside the table returns the default.
- The tinyomo TDC3 rule (itom_hub_tinyomo.py:1656-1667) is never registered as a constraint (its registration is commented out at line 526), so it is not modelled. The pyomo TDC3 is modelled as `PyomoCommon.TDC3`.
- The lookup at itom_hub_tinyomo.py:1144 discards its result and has no effect, so it is not modelled.
- Commented-out constraint families (for example PB5_Production_5, AAC4) are not modelled.
- The constructor of `abstract_itom_retrofit_impurities` (itom_impurities.py:27-55) reads `HighMaxDefault`, which its parent chain never sets. Only its rule IP1 is modelled.
- TF4 and TF5 are not proved to agree between tinyomo (which selects the links crossing the border) and pyomo (which weights every link by Geography). Their contracts state both readings.
- Topology.DirectModeRows: the function's contract states one direction of membership; the converse is the separate lemma `DirectModeLinksEveryPair`.
- The other helper files (`run.py`, `post_process_output.py`, `input_data_check.py`, `data2csv.py`, `debug_util.py`, `directory_check.py`, `post_process_var_tinyomo.py`) are not part of this model.

## Findings

| source | as written | input that shows it | evidently intended | confidence | as-written member | corrected member |
|---|---|---|---|---|---|---|
| src/itom_hub_tinyomo.py:1333-1343 | The straight-line branch of SV1 puts the depreciation coefficient on the SalvageValue column, so the row reads `SalvageValue - CapitalCost * (1 - served/OperationalLife) * SalvageValue == 0` and never mentions NewCapacity. | Years 2020 and 2030, ten-year steps, depreciation method 2, twelve-year life, unit capital cost, y = 2030: the row forces SalvageValue to 0 although one sixth of the investment remains. | `SalvageValue == CapitalCost * (1 - served/OperationalLife) * NewCapacity`, as in pyomo's SV1 (itom_hub.py:779-789). | high; not executed | HubTinyomo.SV1DecadeWitness | HubTinyomo.SV1Corrected |
| src/itom_hub.py:779-789 | SV1's life test `y + TimeStep(y)/2 + OperationalLife - 1 > max(YEAR) + TimeStep(max(YEAR))/2` counts life from the last year of y's period (`y + TimeStep(y)/2`), while the straight-line fraction counts served years from `y - TimeStep(y)/2 + 1`. When the step exceeds 1, capacity the test calls alive can have served longer than its life. | Same instance, y = 2020: the test calls the capacity alive, yet served/OperationalLife is (2035 - 2016 + 1) / 12 = 5/3, so salvage is -2/3 of the investment, and SalvageValue is declared non-negative. | A life test consistent with the fraction's period start, so that salvage lies between 0 and the investment. | medium; not executed | HubTinyomo.SV1NegativeSalvage | HubTinyomo.SV1IntendedBounded |
