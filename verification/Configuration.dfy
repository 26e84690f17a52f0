/**
 The BSSIDs a device takes from its configuration (OWLSclient::UpdateConfiguration).
 */
module Configuration {
  import opened Common
  import opened Naming

  datatype Role = Upstream | Downstream

  datatype Band = Band2G | Band5G | Band6G

  datatype Ssid = Ssid(name: string, bands: seq<string>)

  datatype Interface = Interface(role: Option<string>, ssids: seq<Ssid>)

  /** The key of AllAssociations_. */
  datatype Location = Location(role: Role, ssid: string, band: Band)

  /** One turn of the innermost loop. */
  datatype Pair = Pair(role: Role, ssid: string, band: string)

  function RoleOf(role: Option<string>): Option<Role>
  {
    if role == Some("upstream") then Some(Upstream)
    else if role == Some("downstream") then Some(Downstream)
    else None
  }

  function BandOf(band: string): Option<Band>
  {
    if band == "2G" then Some(Band2G)
    else if band == "5G" then Some(Band5G)
    else if band == "6G" then Some(Band6G)
    else None
  }

  function BandPairs(role: Role, ssid: string, bands: seq<string>): seq<Pair>
  {
    seq(|bands|, i requires 0 <= i < |bands| => Pair(role, ssid, bands[i]))
  }

  function SsidPairs(role: Role, ssids: seq<Ssid>): seq<Pair>
  {
    if ssids == [] then []
    else SsidPairs(role, ssids[..|ssids| - 1]) + BandPairs(role, ssids[|ssids| - 1].name, ssids[|ssids| - 1].bands)
  }

  /** All (ssid, band) pairs under recognised roles, in the order of the configuration. */
  function Pairs(interfaces: seq<Interface>): seq<Pair>
  {
    if interfaces == [] then []
    else
      var last := interfaces[|interfaces| - 1];
      Pairs(interfaces[..|interfaces| - 1]) +
      match RoleOf(last.role)
      case None => []
      case Some(role) => SsidPairs(role, last.ssids)
  }

  /** The k-th pair gets the BSSID serial + k; pairs of an unknown band use up a number for nothing. */
  function Numbered(serial: nat, pairs: seq<Pair>): map<Location, string>
  {
    if pairs == [] then map[]
    else
      var p := pairs[|pairs| - 1];
      var before := Numbered(serial, pairs[..|pairs| - 1]);
      match BandOf(p.band)
      case None => before
      case Some(band) => before[Location(p.role, p.ssid, band) := Bssid(serial, |pairs|)]
  }

  lemma NumberedSnoc(serial: nat, pairs: seq<Pair>, p: Pair)
    ensures Numbered(serial, pairs + [p]) ==
      var before := Numbered(serial, pairs);
      match BandOf(p.band)
      case None => before
      case Some(band) => before[Location(p.role, p.ssid, band) := Bssid(serial, |pairs| + 1)]
  {
    assert (pairs + [p])[..|pairs + [p]| - 1] == pairs;
  }

  lemma PairsSnoc(interfaces: seq<Interface>, i: nat)
    requires i < |interfaces|
    ensures Pairs(interfaces[..i + 1]) ==
      match RoleOf(interfaces[i].role)
      case None => Pairs(interfaces[..i])
      case Some(role) => Pairs(interfaces[..i]) + SsidPairs(role, interfaces[i].ssids)
  {
    assert interfaces[..i + 1][..i] == interfaces[..i];
  }

  lemma SsidPairsSnoc(role: Role, ssids: seq<Ssid>, j: nat, sofar: seq<Pair>)
    requires j < |ssids|
    ensures sofar + SsidPairs(role, ssids[..j + 1])
         == sofar + SsidPairs(role, ssids[..j]) + BandPairs(role, ssids[j].name, ssids[j].bands)
  {
    assert ssids[..j + 1][..j] == ssids[..j];
  }

  lemma BandPairsSnoc(role: Role, ssid: string, bands: seq<string>, b: nat, sofar: seq<Pair>)
    requires b < |bands|
    ensures sofar + BandPairs(role, ssid, bands[..b + 1])
         == sofar + BandPairs(role, ssid, bands[..b]) + [Pair(role, ssid, bands[b])]
  {
  }

  class AssociationTable {
    const serial: nat
    var AllAssociations: map<Location, string>
    var BssidIndex: nat

    constructor (serial: nat)
      ensures this.serial == serial
    {
      this.serial := serial;
      AllAssociations, BssidIndex := map[], 1;
    }

    ghost predicate Holds(pairs: seq<Pair>)
      reads this
    {
      AllAssociations == Numbered(serial, pairs) && BssidIndex == |pairs| + 1
    }

    method UpdateConfiguration(interfaces: seq<Interface>)
      modifies this
      ensures Holds(Pairs(interfaces))
    {
      AllAssociations := map[];
      BssidIndex := 1;
      for i := 0 to |interfaces|
        invariant Holds(Pairs(interfaces[..i]))
      {
        PairsSnoc(interfaces, i);
        var role := RoleOf(interfaces[i].role);
        if role.Some? {
          NumberSsids(role.value, interfaces[i].ssids, Pairs(interfaces[..i]));
        }
      }
      assert interfaces[..|interfaces|] == interfaces;
    }

    /** The middle loop, over the SSIDs of one interface. */
    method NumberSsids(role: Role, ssids: seq<Ssid>, ghost sofar: seq<Pair>)
      requires Holds(sofar)
      modifies this
      ensures Holds(sofar + SsidPairs(role, ssids))
    {
      assert sofar + SsidPairs(role, ssids[..0]) == sofar;
      for j := 0 to |ssids|
        invariant Holds(sofar + SsidPairs(role, ssids[..j]))
      {
        SsidPairsSnoc(role, ssids, j, sofar);
        NumberBands(role, ssids[j].name, ssids[j].bands, sofar + SsidPairs(role, ssids[..j]));
      }
      assert ssids[..|ssids|] == ssids;
    }

    /** The innermost loop, over the bands of one SSID. */
    method NumberBands(role: Role, ssid: string, bands: seq<string>, ghost sofar: seq<Pair>)
      requires Holds(sofar)
      modifies this
      ensures Holds(sofar + BandPairs(role, ssid, bands))
    {
      assert sofar + BandPairs(role, ssid, bands[..0]) == sofar;
      for b := 0 to |bands|
        invariant Holds(sofar + BandPairs(role, ssid, bands[..b]))
      {
        ghost var before := sofar + BandPairs(role, ssid, bands[..b]);
        BandPairsSnoc(role, ssid, bands, b, sofar);
        NumberedSnoc(serial, before, Pair(role, ssid, bands[b]));
        var bssid := Bssid(serial, BssidIndex);
        BssidIndex := BssidIndex + 1;
        var band := BandOf(bands[b]);
        if band.Some? {
          AllAssociations := AllAssociations[Location(role, ssid, band.value) := bssid];
        }
      }
      assert bands[..|bands|] == bands;
    }
  }

  lemma {:induction false} NumberedAt(serial: nat, pairs: seq<Pair>, at: Location) returns (k: nat)
    requires at in Numbered(serial, pairs)
    ensures 1 <= k <= |pairs| && Numbered(serial, pairs)[at] == Bssid(serial, k)
    ensures pairs[k - 1].role == at.role && pairs[k - 1].ssid == at.ssid && BandOf(pairs[k - 1].band) == Some(at.band)
  {
    var p := pairs[|pairs| - 1];
    if BandOf(p.band).Some? && at == Location(p.role, p.ssid, BandOf(p.band).value) {
      k := |pairs|;
    } else {
      k := NumberedAt(serial, pairs[..|pairs| - 1], at);
    }
  }

  /**
   Over all devices of a simulation whose macPrefix is hex for stoull, each configured with at most 15 pairs, no
   BSSID is used twice.
   */
  lemma NoBssidTwice(macPrefix: string, n: nat, nPairs: seq<Pair>, at: Location,
                     m: nat, mPairs: seq<Pair>, other: Location)
    requires |macPrefix| == 6 && IsHex(DigitPart(macPrefix)) && n < DEVICE_SPACE && m < DEVICE_SPACE
    requires |nPairs| <= 15 && |mPairs| <= 15 && (n == m ==> nPairs == mPairs)
    ensures SerialToInt(Serial(macPrefix, n)).Some? && SerialToInt(Serial(macPrefix, m)).Some?
    ensures var a := Numbered(SerialToInt(Serial(macPrefix, n)).value, nPairs);
      var b := Numbered(SerialToInt(Serial(macPrefix, m)).value, mPairs);
      at in a && other in b && a[at] == b[other] ==> n == m && at == other
  {
    SerialAsNumber(macPrefix, n);
    SerialAsNumber(macPrefix, m);
    var x, y := SerialToInt(Serial(macPrefix, n)).value, SerialToInt(Serial(macPrefix, m)).value;
    if at in Numbered(x, nPairs) && other in Numbered(y, mPairs) {
      var k := NumberedAt(x, nPairs, at);
      var l := NumberedAt(y, mPairs, other);
      HexPrefixDistinct(macPrefix, n, k, m, l);
    }
  }

  // ---- Which pairs there are --------------------------------------------------------------------

  /** How a configuration writes a role. */
  function RoleText(role: Role): string
  {
    match role
    case Upstream => "upstream"
    case Downstream => "downstream"
  }

  /** How it writes a band. */
  function BandText(band: Band): string
  {
    match band
    case Band2G => "2G"
    case Band5G => "5G"
    case Band6G => "6G"
  }

  lemma RolesAndBands(role: Role, text: Option<string>, band: Band, name: string)
    ensures RoleOf(text) == Some(role) <==> text == Some(RoleText(role))
    ensures BandOf(name) == Some(band) <==> name == BandText(band)
  {
  }

  /** The configuration has, under this role, this SSID with this band. */
  predicate Configures(interfaces: seq<Interface>, role: Role, ssid: string, band: string)
  {
    exists i, j, b ::
      && 0 <= i < |interfaces| && interfaces[i].role == Some(RoleText(role))
      && 0 <= j < |interfaces[i].ssids| && interfaces[i].ssids[j].name == ssid
      && 0 <= b < |interfaces[i].ssids[j].bands| && interfaces[i].ssids[j].bands[b] == band
  }

  /** The SSIDs name this one with this band. */
  predicate Offers(ssids: seq<Ssid>, ssid: string, band: string)
  {
    exists j, b ::
      && 0 <= j < |ssids| && ssids[j].name == ssid
      && 0 <= b < |ssids[j].bands| && ssids[j].bands[b] == band
  }

  lemma {:induction false} SsidPairsAreOffered(role: Role, ssids: seq<Ssid>, p: Pair)
    ensures p in SsidPairs(role, ssids) <==> p.role == role && Offers(ssids, p.ssid, p.band)
  {
    if ssids != [] {
      var n := |ssids| - 1;
      SsidPairsAreOffered(role, ssids[..n], p);
      BandPairsAreOffered(role, ssids[n], p);
      OffersLast(ssids, p.ssid, p.band);
    }
  }

  lemma BandPairsAreOffered(role: Role, ssid: Ssid, p: Pair)
    ensures p in BandPairs(role, ssid.name, ssid.bands) <==>
      p.role == role && p.ssid == ssid.name && p.band in ssid.bands
  {
    var pairs := BandPairs(role, ssid.name, ssid.bands);
    if p.role == role && p.ssid == ssid.name && p.band in ssid.bands {
      var b :| 0 <= b < |ssid.bands| && ssid.bands[b] == p.band;
      assert pairs[b] == p;
    }
  }

  lemma OffersLast(ssids: seq<Ssid>, ssid: string, band: string)
    requires ssids != []
    ensures var n := |ssids| - 1;
      Offers(ssids, ssid, band) <==> Offers(ssids[..n], ssid, band) || (ssids[n].name == ssid && band in ssids[n].bands)
  {
    var n := |ssids| - 1;
    if Offers(ssids[..n], ssid, band) {
      var j, b :| 0 <= j < n && ssids[..n][j].name == ssid
        && 0 <= b < |ssids[..n][j].bands| && ssids[..n][j].bands[b] == band;
      assert ssids[j].name == ssid && ssids[j].bands[b] == band;
    }
    if Offers(ssids, ssid, band) && !(ssids[n].name == ssid && band in ssids[n].bands) {
      var j, b :| 0 <= j < |ssids| && ssids[j].name == ssid
        && 0 <= b < |ssids[j].bands| && ssids[j].bands[b] == band;
      assert ssids[..n][j].name == ssid && ssids[..n][j].bands[b] == band;
    }
  }

  /** The pairs counted are those configured under a role. */
  lemma {:induction false} PairsAreConfigured(interfaces: seq<Interface>, p: Pair)
    ensures p in Pairs(interfaces) <==> Configures(interfaces, p.role, p.ssid, p.band)
  {
    if interfaces != [] {
      var n := |interfaces| - 1;
      PairsAreConfigured(interfaces[..n], p);
      ConfiguresLast(interfaces, p);
      if RoleOf(interfaces[n].role).Some? {
        SsidPairsAreOffered(RoleOf(interfaces[n].role).value, interfaces[n].ssids, p);
      }
      RolesAndBands(p.role, interfaces[n].role, Band2G, "");
    }
  }

  lemma ConfiguresLast(interfaces: seq<Interface>, p: Pair)
    requires interfaces != []
    ensures var n := |interfaces| - 1;
      Configures(interfaces, p.role, p.ssid, p.band) <==>
        || Configures(interfaces[..n], p.role, p.ssid, p.band)
        || (interfaces[n].role == Some(RoleText(p.role)) && Offers(interfaces[n].ssids, p.ssid, p.band))
  {
    var n := |interfaces| - 1;
    if Configures(interfaces[..n], p.role, p.ssid, p.band) {
      var i, j, b :| 0 <= i < n && interfaces[..n][i].role == Some(RoleText(p.role))
        && 0 <= j < |interfaces[..n][i].ssids| && interfaces[..n][i].ssids[j].name == p.ssid
        && 0 <= b < |interfaces[..n][i].ssids[j].bands| && interfaces[..n][i].ssids[j].bands[b] == p.band;
      assert interfaces[i].ssids[j].bands[b] == p.band;
    }
    if Configures(interfaces, p.role, p.ssid, p.band) {
      var i, j, b :| 0 <= i < |interfaces| && interfaces[i].role == Some(RoleText(p.role))
        && 0 <= j < |interfaces[i].ssids| && interfaces[i].ssids[j].name == p.ssid
        && 0 <= b < |interfaces[i].ssids[j].bands| && interfaces[i].ssids[j].bands[b] == p.band;
      if i < n {
        assert interfaces[..n][i].ssids[j].bands[b] == p.band;
      } else {
        assert interfaces[n].ssids[j].bands[b] == p.band;
      }
    }
  }

  lemma {:induction false} NumberedHasPair(serial: nat, pairs: seq<Pair>, at: Location)
    ensures at in Numbered(serial, pairs) <==> Pair(at.role, at.ssid, BandText(at.band)) in pairs
  {
    if pairs != [] {
      var n := |pairs| - 1;
      NumberedHasPair(serial, pairs[..n], at);
      RolesAndBands(at.role, None, at.band, pairs[n].band);
      assert pairs == pairs[..n] + [pairs[n]];
    }
  }

  /** There is an entry for a role, SSID and band iff the configuration has that band of that SSID under that role. */
  lemma EntriesAreConfigured(serial: nat, interfaces: seq<Interface>, at: Location)
    ensures at in Numbered(serial, Pairs(interfaces)) <==> Configures(interfaces, at.role, at.ssid, BandText(at.band))
  {
    NumberedHasPair(serial, Pairs(interfaces), at);
    PairsAreConfigured(interfaces, Pair(at.role, at.ssid, BandText(at.band)));
  }

  /** How many bands the SSIDs have between them. */
  function BandCount(ssids: seq<Ssid>): nat
  {
    if ssids == [] then 0 else |ssids[0].bands| + BandCount(ssids[1..])
  }

  lemma {:induction false} BandCountSnoc(ssids: seq<Ssid>)
    requires ssids != []
    ensures BandCount(ssids) == BandCount(ssids[..|ssids| - 1]) + |ssids[|ssids| - 1].bands|
  {
    if |ssids| > 1 {
      BandCountSnoc(ssids[1..]);
      assert ssids[1..][..|ssids| - 2] == ssids[..|ssids| - 1][1..];
    } else {
      assert ssids[1..] == [] && ssids[..0] == [];
    }
  }

  lemma {:induction false} SsidPairsCount(role: Role, ssids: seq<Ssid>)
    ensures |SsidPairs(role, ssids)| == BandCount(ssids)
  {
    if ssids != [] {
      SsidPairsCount(role, ssids[..|ssids| - 1]);
      BandCountSnoc(ssids);
    }
  }

  /** Bands of every name use up a number, known or not, but only under a recognised role. */
  lemma EveryBandCounts(interfaces: seq<Interface>, i: nat)
    requires i < |interfaces|
    ensures |Pairs(interfaces[..i + 1])| == |Pairs(interfaces[..i])|
      + if interfaces[i].role in {Some("upstream"), Some("downstream")} then BandCount(interfaces[i].ssids) else 0
  {
    PairsSnoc(interfaces, i);
    if RoleOf(interfaces[i].role).Some? {
      SsidPairsCount(RoleOf(interfaces[i].role).value, interfaces[i].ssids);
    }
  }

  /** Of several pairs for one entry the last one gives it its number. */
  lemma {:induction false} LastPairNumbers(serial: nat, pairs: seq<Pair>, at: Location, k: nat)
    requires 1 <= k <= |pairs| && pairs[k - 1] == Pair(at.role, at.ssid, BandText(at.band))
    requires forall l | k <= l < |pairs| :: pairs[l] != pairs[k - 1]
    ensures at in Numbered(serial, pairs) && Numbered(serial, pairs)[at] == Bssid(serial, k)
    decreases |pairs|
  {
    var n := |pairs| - 1;
    RolesAndBands(at.role, None, at.band, pairs[n].band);
    if k <= n {
      LastPairNumbers(serial, pairs[..n], at, k);
      assert pairs[n] != pairs[k - 1];
    }
  }
}
