/** Choosing the reader among the serial devices, and how long to wait between tries. */
module Discovery {
  import opened Options

  /** A by-id path, or a vendor and product with optional details; the two may be combined. */
  datatype Identity = Identity(
    byId: Option<string>, vendor: Option<int>, product: Option<int>,
    serialNumber: Option<string>, manufacturer: Option<string>, productName: Option<string>)

  datatype Device = Device(
    path: string, byId: Option<string>, vendor: Option<int>, product: Option<int>,
    serialNumber: Option<string>, manufacturer: Option<string>, productName: Option<string>)

  datatype Finding =
    | Found(device: Device, unrelated: nat)
    | NotFound(unrelated: nat)
    | Ambiguous(unrelated: nat)

  predicate Fits(expected: Option<string>, actual: Option<string>) {
    expected.None? || expected == actual
  }

  predicate Matches(d: Device, id: Identity) {
    if id.vendor.None? || id.product.None? then id.byId.Some? && d.byId == id.byId
    else
      && d.vendor == id.vendor && d.product == id.product
      && Fits(id.serialNumber, d.serialNumber)
      && Fits(id.manufacturer, d.manufacturer)
      && Fits(id.productName, d.productName)
  }

  function Matching(devices: seq<Device>, id: Identity): (m: seq<Device>)
    ensures |m| <= |devices|
  {
    if devices == [] then []
    else
      var n := |devices| - 1;
      Matching(devices[..n], id) + if Matches(devices[n], id) then [devices[n]] else []
  }

  function Discover(devices: seq<Device>, id: Identity): Finding {
    var matches := Matching(devices, id);
    if matches == [] then NotFound(|devices|)
    else if |matches| > 1 then Ambiguous(|devices| - |matches|)
    else Found(matches[0], |devices| - 1)
  }

  /** The positions of the matching devices. */
  ghost function Places(devices: seq<Device>, id: Identity): (places: set<int>) {
    set i | 0 <= i < |devices| && Matches(devices[i], id)
  }

  ghost predicate OnlyMatch(devices: seq<Device>, id: Identity, i: int) {
    && 0 <= i < |devices| && Matches(devices[i], id)
    && forall j :: 0 <= j < |devices| && Matches(devices[j], id) ==> j == i
  }

  lemma {:induction false} MatchingCounts(devices: seq<Device>, id: Identity)
    ensures |Matching(devices, id)| == |Places(devices, id)|
  {
    hide Matches;
    var places := Places(devices, id);
    if devices == [] {
      assert places == {};
    } else {
      var n := |devices| - 1;
      MatchingCounts(devices[..n], id);
      assert places == Places(devices[..n], id) + if Matches(devices[n], id) then {n} else {};
    }
  }

  lemma {:induction false} MatchingHead(devices: seq<Device>, id: Identity)
    requires Matching(devices, id) != []
    ensures exists i :: 0 <= i < |devices| && Matches(devices[i], id) && Matching(devices, id)[0] == devices[i]
  {
    hide Matches;
    var n := |devices| - 1;
    if Matching(devices[..n], id) != [] {
      MatchingHead(devices[..n], id);
      var i :| 0 <= i < n && Matches(devices[..n][i], id) && Matching(devices[..n], id)[0] == devices[..n][i];
      assert devices[i] == devices[..n][i];
    }
  }

  /** A device is found exactly when it is the only one that matches, and every device is accounted for. */
  lemma FoundMeansOnlyMatch(devices: seq<Device>, id: Identity)
    ensures var d := Discover(devices, id);
            && (d.Found? <==> exists i :: OnlyMatch(devices, id, i))
            && (d.Found? ==> exists i :: OnlyMatch(devices, id, i) && d.device == devices[i])
            && (d.NotFound? <==> forall i :: 0 <= i < |devices| ==> !Matches(devices[i], id))
            && d.unrelated + |Places(devices, id)| == |devices|
  {
    var places := Places(devices, id);
    MatchingCounts(devices, id);
    hide Matching, Matches;
    if |places| == 0 {
      forall i | 0 <= i < |devices| ensures !Matches(devices[i], id) {
        assert i !in places;
      }
    } else {
      MatchingHead(devices, id);
      var i :| 0 <= i < |devices| && Matches(devices[i], id) && Matching(devices, id)[0] == devices[i];
      assert i in places;
      if |places| == 1 {
        SingletonOnly(places, i);
        forall j | 0 <= j < |devices| && Matches(devices[j], id) ensures j == i {
          assert j in places;
        }
        assert OnlyMatch(devices, id, i);
      } else {
        assert forall k :: OnlyMatch(devices, id, k) ==> places == {k};
      }
    }
  }

  lemma SingletonOnly(s: set<int>, i: int)
    requires |s| == 1 && i in s
    ensures s == {i}
  {
    assert |s - {i}| == 0;
  }

  // ---------------------------------------------------------------- backoff

  datatype BackoffPolicy = BackoffPolicy(minimum: real, maximum: real, jitter: real) {
    predicate Valid() {
      0.0 < minimum <= maximum && 0.0 <= jitter <= 1.0
    }
  }

  function Power(n: nat): (p: real)
    ensures p >= 1.0
  {
    if n == 0 then 1.0 else 2.0 * Power(n - 1)
  }

  function Grown(policy: BackoffPolicy, doublings: nat): real {
    policy.minimum * Power(doublings)
  }

  function Base(policy: BackoffPolicy, attempt: nat): real {
    var grown := Grown(policy, if attempt == 0 then 0 else attempt - 1);
    if policy.maximum <= grown then policy.maximum else grown
  }

  function Delay(policy: BackoffPolicy, attempt: nat, unit: real): real {
    var spread := Base(policy, attempt) * policy.jitter;
    Base(policy, attempt) - spread + 2.0 * spread * unit
  }

  lemma {:induction false} PowerGrows(m: nat, n: nat)
    requires m <= n
    ensures Power(m) <= Power(n)
  {
    if m < n {
      PowerGrows(m, n - 1);
    }
  }

  lemma Products(a: real, s: real, b: real, t: real)
    requires 0.0 <= a <= b && 0.0 <= s <= t
    ensures a * s <= b * t
  {
  }

  lemma GrownGrows(policy: BackoffPolicy, m: nat, n: nat)
    requires policy.Valid() && m <= n
    ensures policy.minimum <= Grown(policy, m) <= Grown(policy, n)
  {
    PowerGrows(m, n);
    Products(policy.minimum, 1.0, policy.minimum, Power(m));
    Products(policy.minimum, Power(m), policy.minimum, Power(n));
  }

  lemma BaseGrows(policy: BackoffPolicy, m: nat, n: nat)
    requires policy.Valid() && m <= n
    ensures policy.minimum <= Base(policy, m) <= Base(policy, n) <= policy.maximum
  {
    hide Grown;
    GrownGrows(policy, if m == 0 then 0 else m - 1, if n == 0 then 0 else n - 1);
  }

  /** The delay as a share of its base: between `1 - jitter` and `1 + jitter` when the unit is in [0, 1]. */
  function Share(policy: BackoffPolicy, unit: real): real {
    1.0 - policy.jitter + 2.0 * (policy.jitter * unit)
  }

  lemma DelayIsShare(policy: BackoffPolicy, attempt: nat, unit: real)
    ensures Delay(policy, attempt, unit) == Base(policy, attempt) * Share(policy, unit)
  {
  }

  lemma ShareGrows(policy: BackoffPolicy, low: real, high: real)
    requires policy.Valid() && 0.0 <= low <= high
    ensures Share(policy, low) <= Share(policy, high)
  {
    Products(policy.jitter, low, policy.jitter, high);
  }

  /** A part of something is no more than the whole. */
  lemma Part(whole: real, unit: real)
    requires whole >= 0.0 && 0.0 <= unit
    ensures 0.0 <= whole * unit
    ensures unit <= 1.0 ==> whole * unit <= whole
  {
    Products(0.0, unit, whole, unit);
    if unit <= 1.0 {
      Products(whole, unit, whole, 1.0);
    }
  }

  lemma ShareIsBounded(policy: BackoffPolicy, unit: real)
    requires policy.Valid() && unit >= 0.0
    ensures 0.0 <= 1.0 - policy.jitter <= Share(policy, unit)
    ensures unit <= 1.0 ==> Share(policy, unit) <= 1.0 + policy.jitter
  {
    Part(policy.jitter, unit);
    var part := policy.jitter * unit;
    assert Share(policy, unit) == 1.0 - policy.jitter + 2.0 * part;
  }

  /** Delays grow with the attempt and with the random unit. */
  lemma DelayGrows(policy: BackoffPolicy, m: nat, n: nat, low: real, high: real)
    requires policy.Valid() && m <= n && 0.0 <= low <= high
    ensures Delay(policy, m, low) <= Delay(policy, n, high)
  {
    DelayIsShare(policy, m, low);
    DelayIsShare(policy, n, high);
    BaseGrows(policy, m, n);
    ShareGrows(policy, low, high);
    ShareIsBounded(policy, low);
    hide Delay, Base, Share;
    Products(Base(policy, m), Share(policy, low), Base(policy, n), Share(policy, high));
  }

  lemma DelayIsBounded(policy: BackoffPolicy, attempt: nat, unit: real)
    requires policy.Valid() && 0.0 <= unit <= 1.0
    ensures policy.minimum * (1.0 - policy.jitter) <= Delay(policy, attempt, unit)
    ensures Delay(policy, attempt, unit) <= policy.maximum * (1.0 + policy.jitter)
  {
    DelayIsShare(policy, attempt, unit);
    BaseGrows(policy, attempt, attempt);
    ShareIsBounded(policy, unit);
    hide Delay, Base, Share;
    Products(policy.minimum, 1.0 - policy.jitter, Base(policy, attempt), Share(policy, unit));
    Products(Base(policy, attempt), Share(policy, unit), policy.maximum, 1.0 + policy.jitter);
  }
}
