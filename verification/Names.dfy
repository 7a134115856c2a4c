/** The parameter names below a path (transformer/transformer.lua:329-345). */
module Names {
  import opened Wrappers
  import opened DeviceMap
  import opened XmlText
  import Acceptance
  import CwmpSession

  type ParameterInfo = CwmpSession.ParameterInfo

  // ---------------------------------------------------------------------
  // The order of texts, byte by byte.

  predicate Before(a: string, b: string) {
    b != "" && (a == "" || a[0] < b[0] || (a[0] == b[0] && Before(a[1..], b[1..])))
  }

  lemma {:induction false} OrderIsTotal(a: string, b: string)
    ensures Before(a, b) || a == b || Before(b, a)
    ensures !(Before(a, b) && Before(b, a)) && !Before(a, a)
  {
    if a != "" {
      if b != "" {
        OrderIsTotal(a[1..], b[1..]);
        assert a[0] == b[0] && a[1..] == b[1..] ==> a == b by {
          assert a == [a[0]] + a[1..] && b == [b[0]] + b[1..];
        }
      }
      OrderIsTotal(a[1..], a[1..]);
    }
  }

  lemma {:induction false} OrderIsTransitive(a: string, b: string, c: string)
    requires Before(a, b) && Before(b, c)
    ensures Before(a, c)
  {
    if a != "" && a[0] == b[0] && b[0] == c[0] {
      OrderIsTransitive(a[1..], b[1..], c[1..]);
    }
  }

  predicate IsSorted(infos: seq<ParameterInfo>) {
    forall i, j :: 0 <= i < j < |infos| ==> !Before(infos[j].name, infos[i].name)
  }

  // table.sort by name
  method SortByName(infos: seq<ParameterInfo>) returns (sorted: seq<ParameterInfo>)
    ensures IsSorted(sorted) && multiset(sorted) == multiset(infos)
  {
    sorted := [];
    for n := 0 to |infos|
      invariant IsSorted(sorted) && multiset(sorted) == multiset(infos[..n])
    {
      assert infos[..n + 1] == infos[..n] + [infos[n]];
      sorted := Insert(sorted, infos[n]);
    }
    assert infos[..|infos|] == infos;
  }

  method Insert(sorted: seq<ParameterInfo>, x: ParameterInfo) returns (r: seq<ParameterInfo>)
    requires IsSorted(sorted)
    ensures IsSorted(r) && multiset(r) == multiset(sorted) + multiset{x}
  {
    var k: nat := |sorted|;
    while k > 0 && Before(x.name, sorted[k - 1].name)
      invariant k <= |sorted| && forall j :: k <= j < |sorted| ==> Before(x.name, sorted[j].name)
    {
      k := k - 1;
    }
    r := sorted[..k] + [x] + sorted[k..];
    assert sorted == sorted[..k] + sorted[k..];
    forall i, j | 0 <= i < j < |r| ensures !Before(r[j].name, r[i].name) {
      Placed(sorted, x, k, i, j);
    }
  }

  lemma Placed(sorted: seq<ParameterInfo>, x: ParameterInfo, k: nat, i: nat, j: nat)
    requires IsSorted(sorted) && k <= |sorted| && i < j <= |sorted|
    requires forall m :: k <= m < |sorted| ==> Before(x.name, sorted[m].name)
    requires k > 0 ==> !Before(x.name, sorted[k - 1].name)
    ensures var r := sorted[..k] + [x] + sorted[k..]; !Before(r[j].name, r[i].name)
  {
    if i == k {
      OrderIsTotal(x.name, sorted[j - 1].name);
    } else if j == k && i < k - 1 && Before(x.name, sorted[i].name) {
      OrderIsTotal(sorted[i].name, sorted[k - 1].name);
      if Before(sorted[i].name, sorted[k - 1].name) {
        OrderIsTransitive(x.name, sorted[i].name, sorted[k - 1].name);
      }
    }
  }

  // ---------------------------------------------------------------------
  // The names of Device.map.

  function Parameters(): seq<Parameter> {
    [RootDataModelVersion, Manufacturer, ManufacturerOUI, ProductClass, ModelName, SerialNumber, SoftwareVersion,
     EnableCWMP, URL, Username, Password, ParameterKey, PeriodicInformEnable, PeriodicInformInterval, PeriodicInformTime,
     ConnectionRequestUsername, ConnectionRequestPassword, ConnectionRequestAuthentication, ConnectionRequestURL,
     UpgradesManaged, DefaultActiveNotificationThrottle, CWMPRetryMinimumWaitInterval, CWMPRetryIntervalMultiplier]
  }

  lemma AllAreListed(p: Parameter)
    ensures p in Parameters()
  {
  }

  // What is said of a parameter below the path.
  function InfoOf(p: Parameter): ParameterInfo {
    CwmpSession.ParameterInfo(PathOf(p), Acceptance.IsWritable(p))
  }

  ghost predicate IsListed(info: ParameterInfo, path: string) {
    exists p :: info == InfoOf(p) && StartsWith(PathOf(p), path)
  }

  /**
   Exactly the parameters whose path begins with the given text, each once, in the order of
   their names; an error exactly when there is none.
   */
  method GetParameterNames(path: string) returns (names: seq<ParameterInfo>, error: string)
    ensures forall info :: info in names <==> IsListed(info, path)
    ensures forall i, j :: 0 <= i < j < |names| ==> Before(names[i].name, names[j].name)
    ensures error == if names == [] then "unknown parameter or object: " + path else ""
  {
    hide PathOf, SpecOf, StartsWith, Acceptance.IsWritable, IsSorted;
    var found: seq<ParameterInfo> := [];
    var left := set p | p in Parameters();
    forall p ensures p in left {
      AllAreListed(p);
    }
    while left != {}
      invariant forall info :: info in found <==> exists p :: p !in left && info == InfoOf(p) && StartsWith(PathOf(p), path)
      invariant AreDistinct(found)
      decreases |left|
    {
      var p :| p in left;
      forall i: nat | i < |found| ensures found[i].name != PathOf(p) {
        assert found[i] in found;
        var q :| q !in left && found[i] == InfoOf(q);
        PathsDiffer(p, q);
      }
      left := left - {p};
      Acceptance.TableIsDescribed(p);
      AccessIsStored(p);
      if StartsWith(PathOf(p), path) {
        found := found + [CwmpSession.ParameterInfo(PathOf(p), SpecOf(p).access == ReadWrite)];
      }
    }
    names := SortByName(found);
    SortedIsDistinct(found, names);
    assert forall info :: info in names <==> info in multiset(names);
    assert forall info :: info in found <==> info in multiset(found);
    error := if names == [] then "unknown parameter or object: " + path else "";
  }

  predicate AreDistinct(infos: seq<ParameterInfo>) {
    forall i, j :: 0 <= i < j < |infos| ==> infos[i].name != infos[j].name
  }

  lemma AccessIsStored(p: Parameter)
    ensures SpecOf(p).access == ReadWrite <==> Acceptance.IsWritable(p)
  {
  }

  lemma PathsDiffer(p: Parameter, q: Parameter)
    requires p != q
    ensures PathOf(p) != PathOf(q)
  {
    hide PathOf, ParameterAt;
    PathsAreDistinct(p);
    PathsAreDistinct(q);
  }

  lemma SortedIsDistinct(found: seq<ParameterInfo>, names: seq<ParameterInfo>)
    requires AreDistinct(found) && IsSorted(names) && multiset(names) == multiset(found)
    ensures forall i, j :: 0 <= i < j < |names| ==> Before(names[i].name, names[j].name)
  {
    forall i, j | 0 <= i < j < |names| ensures Before(names[i].name, names[j].name) {
      if names[i].name == names[j].name {
        TwiceIsNotDistinct(found, names, i, j);
      }
      OrderIsTotal(names[i].name, names[j].name);
    }
  }

  lemma TwiceIsNotDistinct(found: seq<ParameterInfo>, names: seq<ParameterInfo>, i: nat, j: nat)
    requires AreDistinct(found) && multiset(names) == multiset(found) && i < j < |names|
    ensures names[i].name != names[j].name
  {
    assert names[i] in multiset(found) && names[j] in multiset(found);
    if names[i].name == names[j].name {
      var a :| 0 <= a < |found| && found[a] == names[i];
      var b :| 0 <= b < |found| && found[b] == names[j];
      assert a == b;
      assert names[i] == names[j];
      assert names == names[..i] + [names[i]] + names[i + 1..j] + [names[j]] + names[j + 1..];
      assert multiset(names)[names[i]] >= 2;
      OnceInDistinct(found, a);
    }
  }

  lemma OnceInDistinct(found: seq<ParameterInfo>, a: nat)
    requires AreDistinct(found) && a < |found|
    ensures multiset(found)[found[a]] == 1
  {
    assert found == found[..a] + [found[a]] + found[a + 1..];
    assert found[a] !in found[..a] && found[a] !in found[a + 1..];
  }
}
