# Adult-content platforms dashboard: data model

A Dafny model of the data side of `AdultPlatformsDashboard` in `Dashboard.py`.
The dashboard shows simulated market figures for six subscription platforms.
Four pieces of logic produce those figures, and this project models all four:

- the **platform catalog** (`define_platforms`): six platforms in a fixed order, keyed by name;
- the **creator panel** (`initialize_creators_data`): 100 creator records, numbered 1 to 100,
  each on a catalog platform, earning that platform's average times a multiplier
  whose range depends on the creator's category;
- the **market history** (`initialize_market_data`): pass one emits one row per
  (month end, platform), grown by `min(months_since_founded × 0.1, 3.0)`.
  Pass two turns each month's revenues into market shares;
- the **live update** (`update_live_data`): on each refresh, every record's earnings get
  relative noise, its followers an integer step, and its engagement rate a small step
  followed by a clamp to [0, 20].

Randomness is injected. Each `random.randint(a, b)` becomes an integer parameter required to
lie in [a, b]. Each `random.uniform(a, b)` becomes a unit draw `u` in [0, 1), mapped by Python's
own definition `a + (b - a)·u` (`Draws.Uniform`). Each `random.normalvariate` becomes an
unconstrained real, because Gaussian draws are unbounded. Python floats are modelled as exact
`real`s. `datetime.now()` is a parameter: a calendar `Date` for the month-end range, and a day
number for account ages.

Modules: `Wrappers` (Option), `Draws` (uniform draws, clamping), `Decimal` (rendering of ids
in usernames), `Catalog`, `Creators`, `Calendar` (month ends of `pd.date_range(..., freq='M')`),
`Market`, `Live`, and `Dashboard` (the constructor and one refresh tick).

Behaviour of the code worth noting:

- Revenue is `creators × avg_creator_earnings × 0.2` for every platform (`Dashboard.py:205`).
  It does not use the platform's `fees` (`Market.RevenueIgnoresPlatformFee`).
- `months_since_founded` is `(year - founded)·12 + month` (`Dashboard.py:196`). It is not
  clamped at zero, and it counts January of the founding year as month 1, so it is not a
  count of months since the founding date (`Market.MonthsSinceFounded`).
- `update_live_data` does not clamp followers (`Dashboard.py:234`). Applied repeatedly to one
  panel, it can drive them negative (`Live.FollowersCanGoNegative`). The program never does
  that. Each script run builds a fresh dashboard (`Dashboard.py:833-834`) and updates its
  panel once (`Dashboard.py:716`), or twice when the refresh button is pressed
  (`Dashboard.py:702-703`). `st.rerun()` then starts the script over. So reachable follower
  counts stay at or above 900 (`Dashboard.FreshPanelFollowersFloor`).
- The panel size, categories and countries are constants (`Dashboard.py:147-151`; the panel size is the `range(100)` of line 151), so
  creator generation has no error path.
- Market generation has one. When the generation date falls before the first month end, 2020-01-31,
  `date_range` is empty (`Dashboard.py:186`). `pd.DataFrame([])` then has no `date` column
  (`Dashboard.py:216`), and `df['date']` raises `KeyError` (`Dashboard.py:219`). The model returns `None` for
  this case (`Market.InitializeMarketData`, `Dashboard.Initialize`, `Calendar.EmptyHistoryExactly`).

## Model

| member | source | states |
|---|---|---|
| Catalog.Platforms | Dashboard.py:88-143 | `define_platforms` yields six records; their names, order and bounds are stated by `Catalog.PlatformsWellFormed`. |
| Catalog.PlatformsWellFormed | Dashboard.py:86-143 | The catalog holds six platforms with distinct names, in the order OnlyFans, MyM, Fansly, Patreon, JustForFans, LoyalFans. Every platform has fees in [0, 100] percent, positive user, creator and earnings bases, and a founding year no later than 2020. |
| Catalog.Lookup | Dashboard.py:157 | Indexing the catalog by name finds a record exactly when the name is a key. The record found carries that name. |
| Catalog.LookupFindsEach | Dashboard.py:86-143 | With unique names, looking up any platform's own name returns that very platform. |
| Draws.Uniform | Dashboard.py:159-163 | A uniform draw from [a, b] lies in [a, b], and strictly below b when a < b. |
| Draws.UniformInverse | Dashboard.py:159-163 | The unit draw is recovered from the uniform value, so distinct unit draws give distinct values. |
| Draws.UniformCovers | Dashboard.py:177-178 | Every value of [a, b) is produced by some unit draw, so the stated range is tight. |
| Draws.Clamp | Dashboard.py:236 | `max(lo, min(hi, x))` always lies in [lo, hi]. |
| Draws.ClampIsNearest | Dashboard.py:236 | `max(0, min(20, x))` returns the point of [0, 20] nearest to x. It returns x itself exactly when x already lies in the interval. |
| Draws.ClampIdempotent | Dashboard.py:236 | Clamping an already clamped value changes nothing. |
| Decimal.ParseNatToString | Dashboard.py:170 | Parsing the decimal rendering of a number gives the number back. |
| Decimal.NatToStringInjective | Dashboard.py:170 | Two numbers have the same rendering exactly when they are equal. |
| Creators.MultiplierRange | Dashboard.py:158-163 | Every category's multiplier range is non-empty and lies within [0.8, 4.0]. |
| Creators.Username | Dashboard.py:170 | A username is `creator_` followed by digits that parse back to the id. |
| Creators.MakeCreator | Dashboard.py:152-179 | A generated record carries the given id and `creator_<id>`. Its platform is the drawn catalog key, and its category and country come from the fixed lists. |
| Creators.GeneratedCreatorBounds | Dashboard.py:157-179 | Earnings lie between base×lo and base×hi of the category's range: Adult [1.5, 4.0), Fitness [1.2, 2.5), others [0.8, 2.0). For a positive base, earnings/base lies in that range. Followers are in [1000, 500000], price in [5, 50], engagement in [2, 15], quality in [3, 5], and the account age in [30, 1000] days. |
| Creators.InitializeCreatorsData | Dashboard.py:145-182 | The panel has exactly 100 records, numbered 1..100 in order and named `creator_<id>`. Each record is on a catalog platform, within the initial bounds, and earns within its category's range. |
| Creators.UsernamesDistinct | Dashboard.py:169-170 | Usernames of a well-numbered panel are pairwise distinct. |
| Calendar.MonthEnds | Dashboard.py:186 | The range is consecutive valid months, starting with January 2020. |
| Calendar.MonthEndsExact | Dashboard.py:186 | The month-end range holds exactly the months from January 2020 whose last day is on or before the generation date, counting leap years. |
| Calendar.MonthEndsChronological | Dashboard.py:186 | Consecutive month ends are consecutive months, so the range is strictly increasing. |
| Calendar.EmptyHistoryExactly | Dashboard.py:186 | The range is empty exactly when the generation date falls before 2020-01-31. |
| Market.MonthsSinceFounded | Dashboard.py:196 | The month count is the number of months from January of the founding year up to the row's month, both included. It is positive exactly when the platform was founded by the row's year. |
| Market.GrowthFactor | Dashboard.py:196-197 | The growth factor never exceeds 3.0. It equals 3.0 exactly when months ≥ 30. |
| Market.GrowthBelowCap | Dashboard.py:197 | Below 30 months the factor is a tenth of the month count and stays under the cap. |
| Market.GrowthMonotone | Dashboard.py:197 | The growth factor is non-decreasing in months. |
| Market.GrowthPositive | Dashboard.py:196-197 | A platform founded no later than the row's year has a positive growth factor. |
| Market.MakeRow | Dashboard.py:192-213 | A pass-one row carries its date and its platform's name, and a share of 0. |
| Market.RevenueIgnoresPlatformFee | Dashboard.py:205 | Revenue is 20 % of creators × average earnings for every platform. When creators earn anything, it differs from the platform's own fee share whenever that fee is not 20. |
| Market.DateRows | Dashboard.py:190-214 | One date contributes one row per platform. All carry that date and no share yet, and row p carries platform p's name. |
| Market.GenerateRows | Dashboard.py:189-214 | Pass one emits exactly \|dates\| × \|platforms\| rows. |
| Market.GenerateRowsAt | Dashboard.py:189-214 | Pass one is date-major. Row d·n + p is platform p of date d, built from the draws at that position. |
| Market.DateTotal | Dashboard.py:221 | A date's revenue total is zero when no row carries that date. |
| Market.ShareOf | Dashboard.py:222-223 | A share scaled back by its total gives 100 times the revenue, so it is the revenue's percentage of the total. |
| Market.NonnegTotal | Dashboard.py:221 | With non-negative revenues, a date's total is non-negative. |
| Market.RevenueBelowTotal | Dashboard.py:221 | With non-negative revenues, each row's revenue lies between 0 and its date's total. |
| Market.ShareForDate | Dashboard.py:219-224 | The pass for one date keeps the table's length. It leaves rows of other dates unchanged, and changes only the share column. |
| Market.SharesSumTo100 | Dashboard.py:219-224 | With a non-zero total, a date's shares sum to 100 after its pass. |
| Market.ShareForDateBounds | Dashboard.py:219-224 | With non-negative revenues and a positive total, each share of the date lies in [0, 100]. |
| Market.TotalIgnoresShares | Dashboard.py:221 | A date's revenue total depends only on dates and revenues, so rewriting shares does not change it. |
| Market.Distinct | Dashboard.py:219 | `unique()` holds each date of the table once and no other value. |
| Market.NormalisedShares | Dashboard.py:219-224 | If every row holds its revenue's share of its own date's total, every date's shares sum to 100. With non-negative revenues, every share then lies in [0, 100]. |
| Market.ComputeMarketShares | Dashboard.py:218-224 | After the loop over distinct dates, each row holds its revenue's share of its own date's total. Every date's shares sum to 100. With non-negative revenues, each share lies in [0, 100]. |
| Market.RowRevenuePositive | Dashboard.py:196-205 | A platform with positive bases, founded by the row's year, has positive creators and revenue unless its creator noise is at or below -100 %. |
| Market.HistoryRevenuesPositive | Dashboard.py:190-214 | With positive platform bases, foundings no later than every date's year, and creator noise above -100 %, every pass-one revenue is positive. So every date's total is non-zero. |
| Market.InitializeMarketData | Dashboard.py:184-226 | Generation fails (`KeyError`, modelled as `None`) exactly when pass one yields no row. Otherwise the history has \|dates\| × \|platforms\| rows, date-major in catalog order. Apart from its share, each row is its pass-one row. Each share is the row's revenue as a percentage of its date's total, and each date's shares sum to 100. Under the positive-revenue conditions each share lies in [0, 100]. |
| Live.JitterCreator | Dashboard.py:231-236 | One update changes only earnings, followers and engagement. Followers move by -50 to +100, and engagement ends in [0, 20] whatever it was before. |
| Live.JitterSteps | Dashboard.py:232-236 | Followers move by exactly the drawn step, with no clamp. Earnings scale by 1 + variation. An engagement rate already in [0, 20] moves by at most 0.5. |
| Live.UpdateLiveData | Dashboard.py:228-236 | The update keeps the panel's size and every record's other fields. Every engagement rate ends in [0, 20], and every follower count moves by its drawn step. |
| Live.Refresh | Dashboard.py:228-236 | Calling `update_live_data` any number of times on one panel keeps its size. |
| Live.RefreshInvariants | Dashboard.py:228-236 | After any number of `update_live_data` calls on one panel, it keeps its size and the unchanged fields. Followers have moved by the sum of their steps. After at least one call, or starting from rates in [0, 20], every engagement rate lies in [0, 20]. |
| Live.FollowerStepsBounds | Dashboard.py:234 | After k calls, a record's total follower step lies in [-50·k, 100·k]. |
| Live.ConstantSteps | Dashboard.py:234 | k equal steps add up to k times the step. |
| Live.FollowersCanGoNegative | Dashboard.py:234 | With no clamp, a record starting at 1000 followers ends at -50 after 21 calls on the same panel that each draw -50. |
| Dashboard.Initialize | Dashboard.py:81-84 | Construction fails (`KeyError`, modelled as `None`) exactly when the generation date falls before 2020-01-31. Otherwise it yields the six-platform catalog. It yields a 100-record panel whose record i is the one generated from draw i with id i + 1: numbered 1..100, on catalog keys, within the initial bounds. Each record earns within its category's range of its own platform's average earnings. It yields a history of \|month ends\| × 6 rows. Apart from its share, row d·6 + p is the pass-one row of month end d and platform p, built from the draws at that position. In the history each share is its revenue's percentage of its month's total, so shares sum to 100 per month. With creator noise above -100 %, each share lies in [0, 100]. |
| Dashboard.Tick | Dashboard.py:228-236 | One `update_live_data` call changes only the creator panel. The catalog and the history are untouched, and every engagement rate ends in [0, 20]. |
| Dashboard.FreshPanelFollowersFloor | Dashboard.py:702-716 | From a freshly generated panel, followers stay at or above 950 after one update and at or above 900 after two, which is the most one script run performs. |

## Left out

- Page setup, CSS, the sidebar, tabs, metrics and every chart (`Dashboard.py:14-78`, `238-829`): these only render data.
- The auto-refresh loop (`time.sleep(30)` then `st.rerun()`, `Dashboard.py:826-829`): each rerun starts the script over and builds a new dashboard, modelled by calling `Dashboard.Initialize` again. `Live.Refresh` describes repeated `update_live_data` calls on one panel, which the program performs at most twice per run.
- Random distributions: the model takes the draws as parameters and states only their ranges, not their probabilities.
- IEEE floating-point rounding: the model uses exact reals. Because of this, `uniform(a, b)` never reaches `b` in the model, although Python documents that `b` may occur through rounding.
- 64-bit integer overflow of the follower column: it is not reachable with these step sizes.
- pandas `date_range`, `DataFrame`, `unique` and `loc`: the model uses sequences of records, and `Calendar.MonthEnds` and `Market.Distinct` stand in for the first and third.
- Time of day in `datetime.now()`: month ends fall at midnight, so only the date matters for the range. Account ages are kept as day numbers, not timestamps.
- The projection loop and the risk scores of the growth and risk tabs (`Dashboard.py:546-573`, `624-639`): they feed charts only.
- Market.ComputeMarketShares: requires every date's revenue total to be non-zero. The code divides without a guard, and pandas would give NaN or infinity for a zero total.
- Market.InitializeMarketData: requires every date's pass-one revenue total to be non-zero, the only condition the division needs. `Market.HistoryRevenuesPositive` shows that creator noise above -100 % suffices. The [0, 100] bound on shares is promised only under that condition.
- Dashboard.Initialize: requires the same non-zero totals, and promises the [0, 100] bound only when every creator noise draw is above -100 %. A Gaussian draw with σ = 0.03 can fall that low in principle.
- Dashboard.Initialize: `datetime.now()` is two unrelated parameters, a calendar date and a day number. The model does not convert between them.
