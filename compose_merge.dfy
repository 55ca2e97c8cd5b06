/**
 * `InstallCommand::includeSslProxyDockerComposeSettings`: merge the proxy
 * service, its two named volumes and the freed host ports into a parsed
 * docker-compose document.
 *
 * `Merged` is the declarative statement of the merge; the method
 * `IncludeSslProxySettings` follows the source step by step (write into the
 * copy, then loop over the target's ports unsetting conflicting ones) and is
 * proved to compute `Merged`. The lemmas state what the merge promises.
 */
module ComposeMerge {
  import opened Wrappers
  import opened PhpArray
  import Text

  /** Why the merge throws; the command reports every one of them the same way. */
  datatype MergeError =
    | ServicesNotArray     // `services` missing or not an array: `array + null` and friends
    | VolumesNotArray      // `volumes` is a scalar that cannot take a subscript write
    | PortsNotIterable     // the target's `ports` is a scalar: `foreach` over a non-array
    | PublishedNotScalar   // a `published` array cast to string

  datatype Result<T> = Success(value: T) | Failure(error: MergeError)

  const ServicesKey: Key := StrKey("services")
  const VolumesKey: Key := StrKey("volumes")
  const PortsKey: Key := StrKey("ports")
  const PublishedKey: Key := StrKey("published")
  const DataVolume: Key := StrKey("sailcaddydata")
  const ConfigVolume: Key := StrKey("sailcaddyconfig")

  /** `['driver' => 'local']`, the configuration of both named volumes. */
  const LocalDriver: Value := Arr([Entry(StrKey("driver"), Str("local"))])

  predicate IsSeparator(c: char) { c == '/' || c == '\\' }

  /**
   * `rtrim($directory, '/\\')`: the longest prefix that does not end in a
   * separator such that everything after it is separators.
   */
  function TrimSeparators(s: string): (t: string)
    ensures Text.StartsWith(s, t)
    ensures |t| > 0 ==> !IsSeparator(t[|t| - 1])
    ensures forall i :: |t| <= i < |s| ==> IsSeparator(s[i])
  {
    if |s| > 0 && IsSeparator(s[|s| - 1]) then
      var t := TrimSeparators(s[..|s| - 1]);
      assert s[..|s| - 1][..|t|] == s[..|t|];
      t
    else s
  }

  /**
   * The host directory written into the proxy's volume mounts: separators
   * trimmed from the end, and `./` put in front unless it starts with `.`.
   */
  function VolumesDirectory(directory: string): (d: string)
    ensures Text.StartsWith(d, ".")
    ensures d == TrimSeparators(directory) || d == "./" + TrimSeparators(directory)
    ensures d == TrimSeparators(directory) <==> Text.StartsWith(TrimSeparators(directory), ".")
  {
    var t := TrimSeparators(directory);
    if Text.StartsWith(t, ".") then t else "./" + t
  }

  /**
   * An absolute `--directory` is mounted relative to the project: `/srv/ssl`
   * becomes `.//srv/ssl`, which Docker reads as `./srv/ssl`, while the
   * directories and the Caddyfile are written at `/srv/ssl` itself.
   */
  lemma AbsoluteDirectoryMountedRelative(directory: string)
    requires |directory| > 0 && directory[0] == '/' && !IsSeparator(directory[|directory| - 1])
    ensures VolumesDirectory(directory) == "./" + directory
  {
    assert TrimSeparators(directory) == directory;
  }

  /** `"{$service}.proxy"` as an array key. */
  function ProxyKey(service: string): (k: Key)
    ensures k == StrKey(service + ".proxy")
    ensures k != ToKey(service)
  {
    var s := service + ".proxy";
    assert s[|service|] == '.';
    ToKey(s)
  }

  /** The proxy's service definition, exactly as the command builds it. */
  function ProxyService(service: string, volumesDirectory: string): Value
  {
    Arr([
      Entry(StrKey("build"), Arr([
        Entry(StrKey("context"), Str("./vendor/filhocodes/laravel-sail-ssl-proxy/docker")),
        Entry(StrKey("dockerfile"), Str("Dockerfile")),
        Entry(StrKey("args"), Arr([Entry(StrKey("WWWGROUP"), Str("${WWWGROUP}"))]))
      ])),
      Entry(StrKey("image"), Str("sail/filhocodes-ssl-proxy")),
      Entry(StrKey("restart"), Str("unless-stopped")),
      Entry(StrKey("volumes"), List([
        Str(".:/srv:cache"),
        Str("sailcaddydata:/data:cache"),
        Str("sailcaddyconfig:/config:cache"),
        Str(volumesDirectory + "/Caddyfile:/etc/caddy/Caddyfile"),
        Str(volumesDirectory + "/certificates:/data/caddy/certificates/local"),
        Str(volumesDirectory + "/authorities:/data/caddy/pki/authorities/local")
      ])),
      Entry(StrKey("ports"), List([Str("${APP_PORT:-80}:80"), Str("${APP_SSL_PORT:-443}:443")])),
      Entry(StrKey("networks"), List([Str("sail")])),
      Entry(StrKey("depends_on"), List([Str(service)]))
    ])
  }

  /** What the ports loop does with one entry. */
  datatype PortVerdict = Keep | Remove | Throws

  /** A short-syntax binding that claims host port 80 or 443. */
  predicate ConflictingBinding(s: string)
  {
    s == "80" || s == "443"
    || Text.StartsWith(s, "80:") || Text.StartsWith(s, "443:")
    || Text.StartsWith(s, "${APP_PORT:-80}:")
  }

  /**
   * One iteration of the ports loop. A string goes by its text; an array by
   * its `published` value cast to string (`(string) 80` is `"80"`); an
   * integer or null entry is neither a string nor has a `published`, so it
   * stays.
   */
  function Verdict(v: Value): PortVerdict
  {
    match v
    case Str(s) => if ConflictingBinding(s) then Remove else Keep
    case Arr(es) =>
      (match Get(es, PublishedKey)
       case Some(Str(p)) => if p == "80" || p == "443" then Remove else Keep
       case Some(Int(n)) => if n == 80 || n == 443 then Remove else Keep
       case Some(Arr(_)) => Throws
       case _ => Keep)
    case _ => Keep
  }

  /** The entry at `j` makes the loop throw. */
  predicate ThrowsAt(es: seq<Entry>, j: nat)
    requires j < |es|
  {
    Verdict(es[j].value) == Throws
  }

  predicate NoneThrows(es: seq<Entry>)
  {
    forall j :: 0 <= j < |es| ==> !ThrowsAt(es, j)
  }

  /** The ports that survive, with their original keys and in their original order. */
  function Survivors(es: seq<Entry>): seq<Entry>
  {
    if |es| == 0 then []
    else
      var last := es[|es| - 1];
      Survivors(es[..|es| - 1]) + (if Verdict(last.value) == Remove then [] else [last])
  }

  /** One visit of the ports loop: an entry judged `Remove` is unset by its key. */
  function Unset(ports: seq<Entry>, e: Entry): seq<Entry>
  {
    if Verdict(e.value) == Remove then Delete(ports, e.key) else ports
  }

  /** The ports list after the loop has visited the first `i` entries. */
  function Kept(es: seq<Entry>, i: nat): seq<Entry>
    requires i <= |es|
    decreases i
  {
    if i == 0 then es else Unset(Kept(es, i - 1), es[i - 1])
  }

  /** The survivors among the first `i` entries, followed by the entries not yet visited. */
  function Visited(es: seq<Entry>, i: nat): seq<Entry>
    requires i <= |es|
  {
    Survivors(es[..i]) + es[i..]
  }

  /** The target service with its conflicting ports removed, if it has ports. */
  function FreePorts(services: seq<Entry>, name: Key): Result<seq<Entry>>
  {
    match Get(services, name)
    case Some(Arr(svc)) =>
      (match Get(svc, PortsKey)
       case Some(Arr(ports)) =>
         if NoneThrows(ports) then Success(Put(services, name, Arr(Put(svc, PortsKey, Arr(Survivors(ports))))))
         else Failure(PublishedNotScalar)
       case Some(Null) => Success(services)
       case Some(_) => Failure(PortsNotIterable)
       case None => Success(services))
    case _ => Success(services)
  }

  /** `volumes` after both named volumes are written into it (created when absent or null). */
  function DeclaredVolumes(volumes: Option<Value>): Result<seq<Entry>>
  {
    match volumes
    case Some(Arr(vs)) => Success(Put(Put(vs, DataVolume, LocalDriver), ConfigVolume, LocalDriver))
    case Some(Null) => Success(Put(Put([], DataVolume, LocalDriver), ConfigVolume, LocalDriver))
    case None => Success(Put(Put([], DataVolume, LocalDriver), ConfigVolume, LocalDriver))
    case Some(_) => Failure(VolumesNotArray)
  }

  /**
   * The merge with the proxy entry and the target's key given: `proxyKey`
   * and `proxy` are prepended to `services`, the volumes are declared and
   * the service under `name` has its ports freed.
   */
  function MergeInto(doc: seq<Entry>, proxyKey: Key, proxy: Value, name: Key): Result<seq<Entry>>
  {
    match Get(doc, ServicesKey)
    case Some(Arr(services)) =>
      var withProxy := PrependUnion(proxyKey, proxy, services);
      (match DeclaredVolumes(Get(doc, VolumesKey))
       case Failure(e) => Failure(e)
       case Success(volumes) =>
         (match FreePorts(withProxy, name)
          case Failure(e) => Failure(e)
          case Success(merged) => Success(Put(Put(doc, ServicesKey, Arr(merged)), VolumesKey, Arr(volumes)))))
    case _ => Failure(ServicesNotArray)
  }

  /** The merged document for the command's options, or the reason the merge throws. */
  function Merged(doc: seq<Entry>, service: string, directory: string): Result<seq<Entry>>
  {
    MergeInto(Slice(doc), ProxyKey(service), ProxyService(service, VolumesDirectory(directory)), ToKey(service))
  }

  // ---- The source's procedure ----

  /**
   * The `foreach` over a snapshot of the target's ports: each conflicting
   * entry is unset by its key from the live list. `throws` reports an entry
   * whose `published` cannot be cast to string; otherwise `ports` ends as
   * the survivors.
   */
  method UnsetConflictingPorts(snapshot: seq<Entry>) returns (ports: seq<Entry>, throws: bool)
    requires DistinctKeys(snapshot)
    ensures throws <==> !NoneThrows(snapshot)
    ensures !throws ==> ports == Survivors(snapshot)
  {
    ports := snapshot;
    var i := 0;
    while i < |snapshot|
      invariant 0 <= i <= |snapshot|
      invariant ports == Kept(snapshot, i)
      invariant forall j :: 0 <= j < i ==> !ThrowsAt(snapshot, j)
    {
      var verdict := Verdict(snapshot[i].value);
      if verdict == Throws {
        assert ThrowsAt(snapshot, i);
        return ports, true;
      }
      if verdict == Remove {
        ports := Delete(ports, snapshot[i].key);
      }
      i := i + 1;
    }
    KeptAtEnd(snapshot);
    return ports, false;
  }

  /**
   * The merge as the command performs it on its copy of the document:
   * write the proxy into `services`, write the two volumes one after the
   * other, then free the target's ports and write them back.
   */
  method IncludeSslProxySettings(dockerComposeData: seq<Entry>, service: string, directory: string)
    returns (r: Result<seq<Entry>>)
    requires WellFormed(Arr(dockerComposeData))
    ensures r == Merged(dockerComposeData, service, directory)
  {
    var proxyKey := ProxyKey(service);
    var proxy := ProxyService(service, VolumesDirectory(directory));
    var copy := Slice(dockerComposeData);
    SliceWellFormed(dockerComposeData);
    var name := ToKey(service);
    r := MergeCopy(copy, proxyKey, proxy, name);
  }

  /** The body of the merge once the proxy entry and the target's key are built. */
  method MergeCopy(data: seq<Entry>, proxyKey: Key, proxy: Value, name: Key) returns (r: Result<seq<Entry>>)
    requires WellFormed(Arr(data)) && proxyKey != name
    ensures r == MergeInto(data, proxyKey, proxy, name)
  {
    var copy := data;
    var services := Get(copy, ServicesKey);
    if !(services.Some? && services.value.Arr?) {
      return Failure(ServicesNotArray);
    }
    var withProxy := PrependUnion(proxyKey, proxy, services.value.entries);
    copy := Put(copy, ServicesKey, Arr(withProxy));
    ghost var afterServices := copy;

    GetPutOther(data, ServicesKey, Arr(withProxy), VolumesKey);
    var declared := WriteVolumes(copy);
    if declared.Failure? {
      return Failure(declared.error);
    }
    copy := Put(copy, VolumesKey, Arr(declared.value));

    GetPrependUnion(proxyKey, proxy, services.value.entries, name);
    GetWellFormed(data, ServicesKey);
    var freed := FreeTargetPorts(withProxy, name);
    if freed.Failure? {
      return Failure(freed.error);
    }
    MergeIntoSuccess(data, proxyKey, proxy, name, declared.value, freed.value);
    PutCommute(afterServices, ServicesKey, Arr(freed.value), VolumesKey, Arr(declared.value));
    PutPut(data, ServicesKey, Arr(withProxy), Arr(freed.value));
    copy := Put(copy, ServicesKey, Arr(freed.value));
    return Success(copy);
  }

  /**
   * `$copy['volumes']['sailcaddydata'] = ...; $copy['volumes']['sailcaddyconfig'] = ...;`:
   * the two subscript writes, the second into the result of the first, and
   * what `volumes` then holds.
   */
  method WriteVolumes(copy: seq<Entry>) returns (r: Result<seq<Entry>>)
    ensures r == DeclaredVolumes(Get(copy, VolumesKey))
  {
    var volumes := Get(copy, VolumesKey);
    if volumes.Some? && !(volumes.value.Arr? || volumes.value.Null?) {
      return Failure(VolumesNotArray);
    }
    var declared := if volumes.Some? && volumes.value.Arr? then volumes.value.entries else [];
    declared := Put(declared, DataVolume, LocalDriver);
    var once := Put(copy, VolumesKey, Arr(declared));
    GetPutSame(copy, VolumesKey, Arr(declared));
    declared := Put(Get(once, VolumesKey).value.entries, ConfigVolume, LocalDriver);
    return Success(declared);
  }

  /**
   * `if (isset($services[$name]['ports'])) { foreach ... unset ... }`: free
   * the target's ports and write the list back into its definition.
   */
  method FreeTargetPorts(services: seq<Entry>, name: Key) returns (r: Result<seq<Entry>>)
    requires Get(services, name).Some? ==> WellFormed(Get(services, name).value)
    ensures r == FreePorts(services, name)
  {
    var target := Get(services, name);
    if !(target.Some? && target.value.Arr?) {
      return Success(services);
    }
    var ports := Get(target.value.entries, PortsKey);
    if !(ports.Some? && !ports.value.Null?) {
      return Success(services);
    }
    if !ports.value.Arr? {
      return Failure(PortsNotIterable);
    }
    GetWellFormed(target.value.entries, PortsKey);
    var kept, throws := UnsetConflictingPorts(ports.value.entries);
    if throws {
      return Failure(PublishedNotScalar);
    }
    return Success(Put(services, name, Arr(Put(target.value.entries, PortsKey, Arr(kept)))));
  }

  /** How `MergeInto` succeeds, spelled out. */
  lemma MergeIntoSuccess(data: seq<Entry>, pk: Key, pv: Value, name: Key, volumes: seq<Entry>, services: seq<Entry>)
    requires Get(data, ServicesKey).Some? && Get(data, ServicesKey).value.Arr?
    requires DeclaredVolumes(Get(data, VolumesKey)) == Success(volumes)
    requires FreePorts(PrependUnion(pk, pv, Get(data, ServicesKey).value.entries), name) == Success(services)
    ensures MergeInto(data, pk, pv, name) == Success(Put(Put(data, ServicesKey, Arr(services)), VolumesKey, Arr(volumes)))
  {
  }

  // ---- Helper facts ----

  lemma GetWellFormed(es: seq<Entry>, k: Key)
    requires WellFormed(Arr(es)) && Get(es, k).Some?
    ensures WellFormed(Get(es, k).value)
  {
  }

  /** Looking up a key other than the filtered one sees through the filter. */
  lemma {:induction false} GetWithout(es: seq<Entry>, k: Key, k': Key)
    requires k != k'
    ensures Get(Without(es, k), k') == Get(es, k')
  {
    if |es| > 0 {
      GetWithout(es[1..], k, k');
      var w := Without(es, k);
      if es[0].key == k {
        assert w == Without(es[1..], k);
        GetTail(es, k');
      } else if es[0].key == k' {
        assert w[0] == es[0];
      } else {
        assert w == [es[0]] + Without(es[1..], k);
        GetTail(w, k');
        GetTail(es, k');
        assert w[1..] == Without(es[1..], k);
      }
    }
  }

  /**
   * Bindings that name a host address, or another variable for the port,
   * are not among the forms the loop removes, even when they publish port
   * 80 or 443.
   */
  lemma IpBoundPortsSurvive()
    ensures Verdict(Str("127.0.0.1:80:80")) == Keep
    ensures Verdict(Str("0.0.0.0:443:443")) == Keep
    ensures Verdict(Str("${APP_SSL_PORT:-443}:443")) == Keep
  {
    var a, b, c := "127.0.0.1:80:80", "0.0.0.0:443:443", "${APP_SSL_PORT:-443}:443";
    assert a[..3][0] == '1' && b[..3][0] == '0' && c[..3][0] == '$';
    assert a[..4][0] == '1' && b[..4][0] == '0' && c[..4][0] == '$';
    assert c[..16][6] == 'S';
  }

  lemma GetPrependUnion(k: Key, v: Value, es: seq<Entry>, k': Key)
    requires k != k'
    ensures Get(PrependUnion(k, v, es), k') == Get(es, k')
  {
    var u := PrependUnion(k, v, es);
    GetWithout(es, k, k');
    GetTail(u, k');
    assert u[1..] == Without(es, k);
  }

  /** Every surviving entry is an entry of the input that the loop does not remove. */
  lemma {:induction false} SurvivorsMembers(es: seq<Entry>)
    ensures forall e :: e in Survivors(es) <==> e in es && Verdict(e.value) != Remove
    decreases |es|
  {
    if |es| > 0 {
      var init := es[..|es| - 1];
      SurvivorsMembers(init);
      assert es == init + [es[|es| - 1]];
    }
  }

  /** One more iteration of the ports loop. */
  lemma SurvivorsStep(es: seq<Entry>, i: nat)
    requires i < |es|
    ensures Survivors(es[..i + 1]) == Survivors(es[..i]) + (if Verdict(es[i].value) == Remove then [] else [es[i]])
    ensures Survivors(es[..i]) + es[i..] == Survivors(es[..i]) + [es[i]] + es[i + 1..]
  {
    assert es[..i + 1][..i] == es[..i];
    assert es[i..] == [es[i]] + es[i + 1..];
  }

  /** Once the loop has visited every entry, the survivors are all that is left. */
  lemma KeptAtEnd(es: seq<Entry>)
    requires DistinctKeys(es)
    ensures Kept(es, |es|) == Survivors(es)
  {
    KeptIsVisited(es, |es|);
    calc {
      Kept(es, |es|);
      Survivors(es[..|es|]) + es[|es|..];
      { assert es[..|es|] == es; }
      Survivors(es) + es[|es|..];
      { assert es[|es|..] == []; }
      Survivors(es) + [];
    }
  }

  /**
   * With distinct keys, unsetting by key removes exactly the entries judged
   * `Remove`: after `i` entries the list is their survivors followed by the
   * rest.
   */
  lemma {:induction false} KeptIsVisited(es: seq<Entry>, i: nat)
    requires DistinctKeys(es) && i <= |es|
    ensures Kept(es, i) == Visited(es, i)
    decreases i
  {
    if i == 0 {
      NothingVisited(es);
    } else {
      KeptIsVisited(es, i - 1);
      UnsetStep(es, i - 1, Kept(es, i - 1));
    }
  }

  lemma NothingVisited(es: seq<Entry>)
    ensures Visited(es, 0) == es
  {
    assert es[..0] == [];
  }

  /** One iteration of the ports loop keeps `ports` equal to the survivors so far followed by the rest. */
  lemma UnsetStep(es: seq<Entry>, i: nat, ports: seq<Entry>)
    requires DistinctKeys(es) && i < |es| && ports == Visited(es, i)
    ensures Unset(ports, es[i]) == Visited(es, i + 1)
  {
    SurvivorsStep(es, i);
    if Verdict(es[i].value) == Remove {
      SurvivorsKeyFree(es, i);
      DeleteBetween(Survivors(es[..i]), es[i], es[i + 1..]);
    }
  }

  /** With distinct keys, the key of entry `i` is not among the survivors before it. */
  lemma SurvivorsKeyFree(es: seq<Entry>, i: nat)
    requires DistinctKeys(es) && i < |es|
    ensures !HasKey(Survivors(es[..i]), es[i].key)
  {
    SurvivorsMembers(es[..i]);
  }

  lemma {:induction false} SurvivorsAppend(a: seq<Entry>, b: seq<Entry>)
    ensures Survivors(a + b) == Survivors(a) + Survivors(b)
    decreases |b|
  {
    if |b| == 0 {
      assert a + b == a;
    } else {
      var init := b[..|b| - 1];
      var last := b[|b| - 1];
      var kept := if Verdict(last.value) == Remove then [] else [last];
      calc {
        Survivors(a + b);
        { assert (a + b)[..|a + b| - 1] == a + init; assert (a + b)[|a + b| - 1] == last; }
        Survivors(a + init) + kept;
        { SurvivorsAppend(a, init); }
        Survivors(a) + Survivors(init) + kept;
        Survivors(a) + (Survivors(init) + kept);
        Survivors(a) + Survivors(b);
      }
    }
  }

  /** Freeing ports rewrites at most the target's own entry. */
  lemma FreePortsKeeps(services: seq<Entry>, name: Key)
    requires FreePorts(services, name).Success?
    ensures var r := FreePorts(services, name).value;
            |r| == |services|
            && (forall i :: 0 <= i < |services| ==> r[i].key == services[i].key)
            && (forall i :: 0 <= i < |services| && services[i].key != name ==> r[i] == services[i])
  {
  }

  /** Where the merged `services` and `volumes` come from. */
  lemma MergeIntoParts(doc: seq<Entry>, pk: Key, pv: Value, name: Key)
    requires MergeInto(doc, pk, pv, name).Success?
    ensures Get(doc, ServicesKey).Some? && Get(doc, ServicesKey).value.Arr?
    ensures var withProxy := PrependUnion(pk, pv, Get(doc, ServicesKey).value.entries);
            var r := MergeInto(doc, pk, pv, name).value;
            FreePorts(withProxy, name).Success?
            && DeclaredVolumes(Get(doc, VolumesKey)).Success?
            && r == Put(Put(doc, ServicesKey, Arr(FreePorts(withProxy, name).value)),
                        VolumesKey, Arr(DeclaredVolumes(Get(doc, VolumesKey)).value))
            && Get(r, ServicesKey) == Some(Arr(FreePorts(withProxy, name).value))
            && Get(r, VolumesKey) == Some(Arr(DeclaredVolumes(Get(doc, VolumesKey)).value))
  {
    var withProxy := PrependUnion(pk, pv, Get(doc, ServicesKey).value.entries);
    var merged := Arr(FreePorts(withProxy, name).value);
    var volumes := Arr(DeclaredVolumes(Get(doc, VolumesKey)).value);
    GetPutSame(doc, ServicesKey, merged);
    GetPutOther(Put(doc, ServicesKey, merged), VolumesKey, volumes, ServicesKey);
    GetPutSame(Put(doc, ServicesKey, merged), VolumesKey, volumes);
  }

  // ---- What the merge promises ----

  /**
   * The loop removes exactly the conflicting bindings: an entry survives iff
   * it was there and is neither "80", "443", nor a binding of host port 80
   * or 443, and running the loop again removes nothing more.
   */
  lemma {:induction false} SurvivorsFreeTheHostPorts(es: seq<Entry>)
    ensures forall e :: e in Survivors(es) <==> e in es && Verdict(e.value) != Remove
    ensures Survivors(Survivors(es)) == Survivors(es)
    decreases |es|
  {
    SurvivorsMembers(es);
    if |es| > 0 {
      var init := es[..|es| - 1];
      var last := es[|es| - 1];
      SurvivorsFreeTheHostPorts(init);
      var tail := if Verdict(last.value) == Remove then [] else [last];
      SurvivorsAppend(Survivors(init), tail);
      assert Survivors(tail) == tail by {
        if tail != [] {
          assert tail[..0] == [];
        }
      }
    }
  }

  /**
   * After the merge the first service is the proxy entry; the others follow
   * in their previous order, minus any earlier entry under the proxy's key
   * (the left operand of `+` wins), and all but the target service are
   * unchanged.
   */
  lemma ProxyServiceListedFirst(doc: seq<Entry>, pk: Key, pv: Value, name: Key)
    requires pk != name && MergeInto(doc, pk, pv, name).Success?
    ensures Get(doc, ServicesKey).Some? && Get(doc, ServicesKey).value.Arr?
    ensures var r := MergeInto(doc, pk, pv, name).value;
            var previous := Without(Get(doc, ServicesKey).value.entries, pk);
            Get(r, ServicesKey).Some? && Get(r, ServicesKey).value.Arr?
            && var now := Get(r, ServicesKey).value.entries;
            |now| == 1 + |previous|
            && now[0] == Entry(pk, pv)
            && (forall i :: 0 <= i < |previous| ==> now[i + 1].key == previous[i].key)
            && (forall i :: 0 <= i < |previous| && previous[i].key != name ==> now[i + 1] == previous[i])
  {
    MergeIntoParts(doc, pk, pv, name);
    var withProxy := PrependUnion(pk, pv, Get(doc, ServicesKey).value.entries);
    FreePortsKeeps(withProxy, name);
  }

  /**
   * The target service ends up with its conflicting ports removed, the
   * survivors keeping their keys; a target without `ports`, or without a
   * definition, is left as it was.
   */
  lemma TargetPortsFreed(doc: seq<Entry>, pk: Key, pv: Value, name: Key)
    requires pk != name && MergeInto(doc, pk, pv, name).Success?
    ensures Get(doc, ServicesKey).Some? && Get(doc, ServicesKey).value.Arr?
    ensures var before := Get(doc, ServicesKey).value.entries;
            var r := MergeInto(doc, pk, pv, name).value;
            Get(r, ServicesKey).Some? && Get(r, ServicesKey).value.Arr?
            && var after := Get(r, ServicesKey).value.entries;
            match Get(before, name)
            case Some(Arr(svc)) =>
              (match Get(svc, PortsKey)
               case Some(Arr(ports)) =>
                 NoneThrows(ports) && Get(after, name) == Some(Arr(Put(svc, PortsKey, Arr(Survivors(ports)))))
               case _ => Get(after, name) == Some(Arr(svc)))
            case other => Get(after, name) == other
  {
    MergeIntoParts(doc, pk, pv, name);
    var before := Get(doc, ServicesKey).value.entries;
    var withProxy := PrependUnion(pk, pv, before);
    GetPrependUnion(pk, pv, before, name);
    match Get(before, name) {
      case Some(Arr(svc)) =>
        match Get(svc, PortsKey) {
          case Some(Arr(ports)) =>
            GetPutSame(withProxy, name, Arr(Put(svc, PortsKey, Arr(Survivors(ports)))));
          case _ =>
        }
      case _ =>
    }
  }

  /** Writing the two volumes into `vs`. */
  lemma DeclaredVolumesShape(vs: seq<Entry>)
    ensures var after := Put(Put(vs, DataVolume, LocalDriver), ConfigVolume, LocalDriver);
            Get(after, DataVolume) == Some(LocalDriver)
            && Get(after, ConfigVolume) == Some(LocalDriver)
            && |vs| <= |after|
            && (forall i :: 0 <= i < |vs| ==> after[i].key == vs[i].key)
            && (forall i :: 0 <= i < |vs| && vs[i].key != DataVolume && vs[i].key != ConfigVolume
                  ==> after[i] == vs[i])
            && after[|vs|..] == (if HasKey(vs, DataVolume) then [] else [Entry(DataVolume, LocalDriver)])
                              + (if HasKey(vs, ConfigVolume) then [] else [Entry(ConfigVolume, LocalDriver)])
  {
    var once := Put(vs, DataVolume, LocalDriver);
    GetPutSame(once, ConfigVolume, LocalDriver);
    GetPutSame(vs, DataVolume, LocalDriver);
    GetPutOther(once, ConfigVolume, LocalDriver, DataVolume);
    assert HasKey(once, ConfigVolume) <==> HasKey(vs, ConfigVolume);
  }

  /**
   * Both named volumes read `{driver: local}`; volumes that were there keep
   * their positions and values, and missing ones are appended, data before
   * config. A missing or null `volumes` starts out empty.
   */
  lemma VolumesDeclared(doc: seq<Entry>, pk: Key, pv: Value, name: Key)
    requires MergeInto(doc, pk, pv, name).Success?
    ensures var r := MergeInto(doc, pk, pv, name).value;
            var before := match Get(doc, VolumesKey) case Some(Arr(vs)) => vs case _ => [];
            Get(r, VolumesKey).Some? && Get(r, VolumesKey).value.Arr?
            && var after := Get(r, VolumesKey).value.entries;
            Get(after, DataVolume) == Some(LocalDriver)
            && Get(after, ConfigVolume) == Some(LocalDriver)
            && |before| <= |after|
            && (forall i :: 0 <= i < |before| ==> after[i].key == before[i].key)
            && (forall i :: 0 <= i < |before| && before[i].key != DataVolume && before[i].key != ConfigVolume
                  ==> after[i] == before[i])
            && after[|before|..] == (if HasKey(before, DataVolume) then [] else [Entry(DataVolume, LocalDriver)])
                                  + (if HasKey(before, ConfigVolume) then [] else [Entry(ConfigVolume, LocalDriver)])
  {
    MergeIntoParts(doc, pk, pv, name);
    var before := match Get(doc, VolumesKey) case Some(Arr(vs)) => vs case _ => [];
    DeclaredVolumesShape(before);
  }

  /**
   * Every top-level key other than `services` and `volumes` keeps its value
   * and its position; the only new top-level key is `volumes`, appended when
   * it was absent.
   */
  lemma OtherTopLevelKeysUntouched(doc: seq<Entry>, pk: Key, pv: Value, name: Key)
    requires MergeInto(doc, pk, pv, name).Success?
    ensures var r := MergeInto(doc, pk, pv, name).value;
            |r| == |doc| + (if HasKey(doc, VolumesKey) then 0 else 1)
            && (forall i :: 0 <= i < |doc| ==> r[i].key == doc[i].key)
            && (!HasKey(doc, VolumesKey) ==> r[|doc|].key == VolumesKey)
            && (forall k :: k != ServicesKey && k != VolumesKey ==> Get(r, k) == Get(doc, k))
  {
    MergeIntoParts(doc, pk, pv, name);
    var r := MergeInto(doc, pk, pv, name).value;
    var s := Get(r, ServicesKey).value;
    var v := Get(r, VolumesKey).value;
    var mid := Put(doc, ServicesKey, s);
    assert HasKey(doc, ServicesKey);
    assert HasKey(mid, VolumesKey) <==> HasKey(doc, VolumesKey);
    forall k | k != ServicesKey && k != VolumesKey ensures Get(r, k) == Get(doc, k) {
      GetPutOther(doc, ServicesKey, s, k);
      GetPutOther(mid, VolumesKey, v, k);
    }
  }

  /** A services list that already starts with the proxy is a fixed point of the union. */
  lemma PrependUnionFixed(k: Key, v: Value, es: seq<Entry>)
    requires |es| >= 1 && es[0] == Entry(k, v) && !HasKey(es[1..], k)
    ensures PrependUnion(k, v, es) == es
  {
    assert es == [es[0]] + es[1..];
    assert Without(es, k) == Without(es[1..], k);
    WithoutAbsent(es[1..], k);
  }

  /** The survivors of a list that does not throw do not throw either. */
  lemma SurvivorsNoneThrow(ports: seq<Entry>)
    requires NoneThrows(ports)
    ensures NoneThrows(Survivors(ports))
  {
    SurvivorsMembers(ports);
    var kept := Survivors(ports);
    forall j | 0 <= j < |kept| ensures !ThrowsAt(kept, j) {
      assert kept[j] in ports;
      var k :| 0 <= k < |ports| && ports[k] == kept[j];
      assert !ThrowsAt(ports, k);
    }
  }

  /** Freeing the ports of a list whose ports are already free changes nothing. */
  lemma FreePortsAgain(services: seq<Entry>, name: Key)
    requires FreePorts(services, name).Success?
    ensures FreePorts(FreePorts(services, name).value, name) == FreePorts(services, name)
  {
    match Get(services, name) {
      case Some(Arr(svc)) =>
        match Get(svc, PortsKey) {
          case Some(Arr(ports)) =>
            var kept := Survivors(ports);
            var svc' := Put(svc, PortsKey, Arr(kept));
            var freed := Put(services, name, Arr(svc'));
            GetPutSame(services, name, Arr(svc'));
            GetPutSame(svc, PortsKey, Arr(kept));
            SurvivorsFreeTheHostPorts(ports);
            SurvivorsNoneThrow(ports);
            PutExisting(svc', PortsKey, Arr(kept));
            PutExisting(freed, name, Arr(svc'));
          case _ =>
        }
      case _ =>
    }
  }

  /** After the union and the port loop the proxy is still first and alone under its key. */
  lemma ProxyStaysFirst(before: seq<Entry>, pk: Key, pv: Value, name: Key)
    requires pk != name && FreePorts(PrependUnion(pk, pv, before), name).Success?
    ensures var services := FreePorts(PrependUnion(pk, pv, before), name).value;
            PrependUnion(pk, pv, services) == services
  {
    var withProxy := PrependUnion(pk, pv, before);
    var services := FreePorts(withProxy, name).value;
    FreePortsKeeps(withProxy, name);
    assert withProxy[1..] == Without(before, pk);
    assert forall i :: 0 <= i < |services[1..]| ==> services[1..][i].key == withProxy[1..][i].key;
    assert !HasKey(services[1..], pk);
    PrependUnionFixed(pk, pv, services);
  }

  /** Declaring the volumes a second time changes nothing. */
  lemma DeclaredVolumesAgain(volumes: Option<Value>)
    requires DeclaredVolumes(volumes).Success?
    ensures DeclaredVolumes(Some(Arr(DeclaredVolumes(volumes).value))) == DeclaredVolumes(volumes)
  {
    var vs := match volumes case Some(Arr(x)) => x case _ => [];
    var after := DeclaredVolumes(volumes).value;
    DeclaredVolumesShape(vs);
    PutExisting(after, DataVolume, LocalDriver);
    PutExisting(after, ConfigVolume, LocalDriver);
  }

  /**
   * Merging is idempotent: merging the merged document again with the same
   * proxy and target gives the same document, so repeated installs add no
   * duplicate service, volume or port change.
   */
  lemma MergeIntoIdempotent(doc: seq<Entry>, pk: Key, pv: Value, name: Key)
    requires pk != name && MergeInto(doc, pk, pv, name).Success?
    ensures MergeInto(MergeInto(doc, pk, pv, name).value, pk, pv, name) == MergeInto(doc, pk, pv, name)
  {
    MergeIntoParts(doc, pk, pv, name);
    var r := MergeInto(doc, pk, pv, name).value;
    var before := Get(doc, ServicesKey).value.entries;
    var services := FreePorts(PrependUnion(pk, pv, before), name).value;
    var volumes := DeclaredVolumes(Get(doc, VolumesKey)).value;
    ProxyStaysFirst(before, pk, pv, name);
    FreePortsAgain(PrependUnion(pk, pv, before), name);
    DeclaredVolumesAgain(Get(doc, VolumesKey));
    PutExisting(r, ServicesKey, Arr(services));
    PutExisting(r, VolumesKey, Arr(volumes));
  }

  /** Running the command's merge twice with the same options gives the document of one run. */
  lemma MergeIdempotent(doc: seq<Entry>, service: string, directory: string)
    requires Merged(doc, service, directory).Success?
    ensures Merged(Merged(doc, service, directory).value, service, directory) == Merged(doc, service, directory)
  {
    var pk := ProxyKey(service);
    var pv := ProxyService(service, VolumesDirectory(directory));
    var sliced := Slice(doc);
    MergeIntoParts(sliced, pk, pv, ToKey(service));
    var r := MergeInto(sliced, pk, pv, ToKey(service)).value;
    var services := Get(r, ServicesKey).value;
    var volumes := Get(r, VolumesKey).value;
    RenumberAgain(doc, 0);
    RenumberPut(sliced, 0, "services", services);
    RenumberPut(Put(sliced, ServicesKey, services), 0, "volumes", volumes);
    MergeIntoIdempotent(sliced, pk, pv, ToKey(service));
  }
}
