/** The bounded projection of configuration references from a pod specification. Every helper stops
    early once it is past the bound; together they still yield the first declarations of the
    unbounded projection, in order. */
module ConfigReferences {
  import opened Wrappers

  const MAX_REFERENCES: nat := 64

  datatype Identity = Identity(context: string, gvr: string, namespace: string, name: string, uid: string, kind: string)

  datatype Kind = ConfigMapKind | SecretKind

  datatype Use = EnvUse | EnvFromUse | VolumeUse | NodePublishUse | ImagePullUse

  datatype Reference = Reference(consumer: Identity, kind: Kind, name: string, key: string, container: string,
                                 variable: string, use: Use, mount: string, itemPath: string, prefix: string,
                                 optional: bool, subPath: bool)

  datatype KeySelector = KeySelector(name: string, key: string, optional: Option<bool>)
  datatype ValueFrom = ValueFrom(configMap: Option<KeySelector>, secret: Option<KeySelector>)
  datatype EnvVar = EnvVar(name: string, valueFrom: Option<ValueFrom>)
  datatype EnvSource = EnvSource(name: string, optional: Option<bool>)
  datatype EnvFrom = EnvFrom(prefix: string, configMap: Option<EnvSource>, secret: Option<EnvSource>)
  datatype Mount = Mount(name: string, mountPath: string, subPath: string, subPathExpr: string)
  datatype Item = Item(key: string, path: string)
  datatype ItemSource = ItemSource(name: string, items: seq<Item>, optional: Option<bool>)
  datatype Projection = Projection(configMap: Option<ItemSource>, secret: Option<ItemSource>)
  datatype Csi = Csi(nodePublishSecret: Option<string>)
  datatype Volume = Volume(name: string, configMap: Option<ItemSource>, secret: Option<ItemSource>,
                           projected: Option<seq<Projection>>, csi: Option<Csi>)
  datatype Container = Container(name: string, env: seq<EnvVar>, envFrom: seq<EnvFrom>, mounts: seq<Mount>)
  datatype PodSpec = PodSpec(initContainers: seq<Container>, containers: seq<Container>,
                             ephemeralContainers: seq<Container>, volumes: seq<Volume>, imagePullSecrets: seq<string>)

  function Optional(value: Option<bool>): bool { value.Some? && value.value }

  function Base(id: Identity): Reference {
    Reference(id, ConfigMapKind, "", "", "", "", EnvUse, "", "", "", false, false)
  }

  // ---- The simple projection: everything that is declared, without any bound ----

  function KeyDeclared(id: Identity, c: Container, env: EnvVar, kind: Kind, from: Option<KeySelector>): seq<Reference> {
    if from.None? then []
    else [Base(id).(kind := kind, name := from.value.name, key := from.value.key, container := c.name,
                    variable := env.name, use := EnvUse, optional := Optional(from.value.optional))]
  }

  function EnvDeclared(id: Identity, c: Container, env: EnvVar): seq<Reference> {
    if env.valueFrom.None? then []
    else KeyDeclared(id, c, env, ConfigMapKind, env.valueFrom.value.configMap)
         + KeyDeclared(id, c, env, SecretKind, env.valueFrom.value.secret)
  }

  function AllEnv(id: Identity, c: Container, envs: seq<EnvVar>): seq<Reference> {
    if envs == [] then [] else AllEnv(id, c, envs[..|envs| - 1]) + EnvDeclared(id, c, envs[|envs| - 1])
  }

  function SourceDeclared(id: Identity, c: Container, prefix: string, kind: Kind,
                          from: Option<EnvSource>): seq<Reference> {
    if from.None? then []
    else [Base(id).(kind := kind, name := from.value.name, container := c.name, use := EnvFromUse,
                    prefix := prefix, optional := Optional(from.value.optional))]
  }

  function EnvFromDeclared(id: Identity, c: Container, from: EnvFrom): seq<Reference> {
    SourceDeclared(id, c, from.prefix, ConfigMapKind, from.configMap)
    + SourceDeclared(id, c, from.prefix, SecretKind, from.secret)
  }

  function AllEnvFrom(id: Identity, c: Container, froms: seq<EnvFrom>): seq<Reference> {
    if froms == [] then [] else AllEnvFrom(id, c, froms[..|froms| - 1]) + EnvFromDeclared(id, c, froms[|froms| - 1])
  }

  function MountBase(id: Identity, c: string, m: Mount): Reference {
    Base(id).(container := c, use := VolumeUse, mount := m.mountPath, subPath := m.subPath != "" || m.subPathExpr != "")
  }

  function AllItems(ref: Reference, items: seq<Item>): seq<Reference> {
    seq(|items|, i requires 0 <= i < |items| => ref.(key := items[i].key, itemPath := items[i].path))
  }

  function ItemsDeclared(base: Reference, kind: Kind, source: Option<ItemSource>): seq<Reference> {
    if source.None? then []
    else
      var ref := base.(kind := kind, name := source.value.name, optional := Optional(source.value.optional));
      if source.value.items == [] then [ref] else AllItems(ref, source.value.items)
  }

  function AllProjections(base: Reference, sources: seq<Projection>): seq<Reference> {
    if sources == [] then []
    else
      var last := sources[|sources| - 1];
      AllProjections(base, sources[..|sources| - 1])
      + (ItemsDeclared(base, ConfigMapKind, last.configMap) + ItemsDeclared(base, SecretKind, last.secret))
  }

  function VolumeDeclared(id: Identity, c: string, m: Mount, v: Volume): seq<Reference> {
    var base := MountBase(id, c, m);
    ItemsDeclared(base, ConfigMapKind, v.configMap) + ItemsDeclared(base, SecretKind, v.secret)
    + (if v.projected.Some? then AllProjections(base, v.projected.value) else [])
    + (if v.csi.Some? && v.csi.value.nodePublishSecret.Some?
       then [base.(kind := SecretKind, name := v.csi.value.nodePublishSecret.value, use := NodePublishUse)] else [])
  }

  function MountDeclared(id: Identity, c: string, m: Mount, volumes: seq<Volume>): seq<Reference> {
    if volumes == [] then []
    else MountDeclared(id, c, m, volumes[..|volumes| - 1])
         + (if volumes[|volumes| - 1].name == m.name then VolumeDeclared(id, c, m, volumes[|volumes| - 1]) else [])
  }

  function AllMounts(id: Identity, c: string, mounts: seq<Mount>, volumes: seq<Volume>): seq<Reference> {
    if mounts == [] then []
    else AllMounts(id, c, mounts[..|mounts| - 1], volumes) + MountDeclared(id, c, mounts[|mounts| - 1], volumes)
  }

  function ContainerDeclared(id: Identity, c: Container, volumes: seq<Volume>): seq<Reference> {
    AllEnv(id, c, c.env) + AllEnvFrom(id, c, c.envFrom) + AllMounts(id, c.name, c.mounts, volumes)
  }

  function AllContainers(id: Identity, containers: seq<Container>, volumes: seq<Volume>): seq<Reference> {
    if containers == [] then []
    else AllContainers(id, containers[..|containers| - 1], volumes)
         + ContainerDeclared(id, containers[|containers| - 1], volumes)
  }

  function Pulls(id: Identity, names: seq<string>): seq<Reference> {
    seq(|names|, i requires 0 <= i < |names| =>
      Base(id).(kind := SecretKind, name := names[i], use := ImagePullUse))
  }

  function Declared(id: Identity, spec: PodSpec): seq<Reference> {
    AllContainers(id, spec.initContainers + spec.containers + spec.ephemeralContainers, spec.volumes)
    + Pulls(id, spec.imagePullSecrets)
  }

  // ---- Agreement up to the bound ----

  function Min(a: int, b: int): int { if a < b then a else b }

  /** One more than the bound, so that an overlong projection can be told from a full one. */
  function First(s: seq<Reference>): seq<Reference> { s[..Min(|s|, MAX_REFERENCES + 1)] }

  ghost predicate Agree(bounded: seq<Reference>, all: seq<Reference>) { First(bounded) == First(all) }

  /** Below the bound agreement is equality; past it nothing more can matter. */
  lemma {:induction false} AgreeCases(bounded: seq<Reference>, all: seq<Reference>)
    requires Agree(bounded, all)
    ensures |bounded| <= MAX_REFERENCES ==> bounded == all
    ensures |bounded| > MAX_REFERENCES ==> |all| > MAX_REFERENCES
  {
    if |bounded| <= MAX_REFERENCES {
      assert First(bounded) == bounded && |First(all)| == |bounded|;
      assert First(all) == all;
    } else {
      assert |First(bounded)| == MAX_REFERENCES + 1;
    }
  }

  /** An early return: past the bound, agreeing with a beginning is agreeing with the whole. */
  lemma {:induction false} EarlyReturn(refs: seq<Reference>, part: seq<Reference>, all: seq<Reference>)
    requires Agree(refs, part) && part <= all && |refs| > MAX_REFERENCES
    ensures Agree(refs, all)
  {
    AgreeCases(refs, part);
    assert First(part) == First(all);
  }

  lemma {:induction false} AgreeAppend(a: seq<Reference>, x: seq<Reference>, b: seq<Reference>, y: seq<Reference>)
    requires Agree(a, x) && Agree(b, y)
    ensures Agree(a + b, x + y)
  {
    AgreeCases(a, x);
    AgreeCases(b, y);
    if |a| > MAX_REFERENCES {
      assert First(a + b) == First(a);
    } else if |b| > MAX_REFERENCES {
      var k := MAX_REFERENCES + 1 - |a|;
      assert First(a + b) == a + First(b)[..k] && First(x + y) == x + First(y)[..k];
    }
  }

  lemma {:induction false} NothingAgrees()
    ensures Agree([], [])
  {
  }

  lemma {:induction false} SameAgrees(refs: seq<Reference>)
    ensures Agree(refs, refs)
  {
  }

  method BoundedAppend(refs: seq<Reference>, added: seq<Reference>) returns (r: seq<Reference>)
    ensures First(r) == First(refs + added)
    ensures |refs| <= MAX_REFERENCES + 1 ==> |r| <= MAX_REFERENCES + 1
    ensures refs <= r
  {
    var remaining := MAX_REFERENCES + 1 - |refs|;
    r := refs + added[..Min(|added|, if remaining > 0 then remaining else 0)];
  }

  /** Appending a part with a bound, after a part with a bound, agrees with appending them whole. */
  lemma {:induction false} BoundedAppendAgrees(refs: seq<Reference>, x: seq<Reference>, added: seq<Reference>,
                                               y: seq<Reference>, r: seq<Reference>)
    requires Agree(refs, x) && Agree(added, y) && First(r) == First(refs + added)
    ensures Agree(r, x + y)
  {
    AgreeAppend(refs, x, added, y);
  }

  // ---- The bounded projection ----

  method ItemReferences(base: Reference, kind: Kind, source: ItemSource) returns (refs: seq<Reference>)
    ensures Agree(refs, ItemsDeclared(base, kind, Some(source)))
  {
    var ref := base.(kind := kind, name := source.name, optional := Optional(source.optional));
    if source.items == [] {
      return [ref];
    }
    refs := [];
    var n := Min(|source.items|, MAX_REFERENCES + 1);
    for i := 0 to n
      invariant refs == AllItems(ref, source.items)[..i]
    {
      refs := refs + [ref.(key := source.items[i].key, itemPath := source.items[i].path)];
    }
  }

  method VolumeReferences(id: Identity, c: string, m: Mount, v: Volume) returns (refs: seq<Reference>)
    ensures Agree(refs, VolumeDeclared(id, c, m, v))
  {
    hide AllProjections, Agree, MountBase, Base, First;
    var base := MountBase(id, c, m);
    refs := [];
    ghost var all: seq<Reference> := [];
    NothingAgrees();
    if v.configMap.Some? {
      refs, all := AppendItems(refs, base, ConfigMapKind, v.configMap.value, all);
    }
    if v.secret.Some? {
      refs, all := AppendItems(refs, base, SecretKind, v.secret.value, all);
    }
    assert all == ItemsDeclared(base, ConfigMapKind, v.configMap) + ItemsDeclared(base, SecretKind, v.secret);
    if v.projected.Some? {
      var early;
      refs, early := ProjectedReferences(refs, base, v.projected.value, all);
      all := all + AllProjections(base, v.projected.value);
      if early {
        EarlyReturn(refs, all, VolumeDeclared(id, c, m, v));
        return refs;
      }
    }
    if v.csi.Some? && v.csi.value.nodePublishSecret.Some? {
      var last := [base.(kind := SecretKind, name := v.csi.value.nodePublishSecret.value, use := NodePublishUse)];
      SameAgrees(last);
      AgreeAppend(refs, all, last, last);
      refs := refs + last;
      assert VolumeDeclared(id, c, m, v) == all + last;
    } else {
      assert VolumeDeclared(id, c, m, v) == all;
    }
  }

  /** The recurring step: project some items and append them within the bound. */
  method AppendItems(refs: seq<Reference>, base: Reference, kind: Kind, source: ItemSource, ghost all: seq<Reference>)
    returns (r: seq<Reference>, ghost whole: seq<Reference>)
    requires Agree(refs, all)
    ensures whole == all + ItemsDeclared(base, kind, Some(source))
    ensures Agree(r, all + ItemsDeclared(base, kind, Some(source)))
  {
    var added := ItemReferences(base, kind, source);
    r := BoundedAppend(refs, added);
    whole := all + ItemsDeclared(base, kind, Some(source));
    BoundedAppendAgrees(refs, all, added, ItemsDeclared(base, kind, Some(source)), r);
  }

  function OneProjection(base: Reference, p: Projection): seq<Reference> {
    ItemsDeclared(base, ConfigMapKind, p.configMap) + ItemsDeclared(base, SecretKind, p.secret)
  }

  method AppendProjection(refs: seq<Reference>, base: Reference, p: Projection, ghost all: seq<Reference>)
    returns (r: seq<Reference>)
    requires Agree(refs, all)
    ensures Agree(r, all + OneProjection(base, p))
  {
    r := refs;
    ghost var whole := all;
    if p.configMap.Some? {
      r, whole := AppendItems(r, base, ConfigMapKind, p.configMap.value, whole);
    }
    if p.secret.Some? {
      r, whole := AppendItems(r, base, SecretKind, p.secret.value, whole);
    }
    assert whole == all + OneProjection(base, p);
  }

  lemma {:induction false} ProjectionsSnoc(all: seq<Reference>, base: Reference, sources: seq<Projection>, i: nat)
    requires i < |sources|
    ensures all + AllProjections(base, sources[..i]) + OneProjection(base, sources[i])
         == all + AllProjections(base, sources[..i + 1])
  {
    assert sources[..i + 1][..i] == sources[..i];
  }

  /** The loop over the sources of a projected volume; `early` says that it returned past the bound. */
  method ProjectedReferences(start: seq<Reference>, base: Reference, sources: seq<Projection>,
                             ghost all: seq<Reference>)
    returns (refs: seq<Reference>, early: bool)
    requires Agree(start, all)
    ensures Agree(refs, all + AllProjections(base, sources))
    ensures early ==> |refs| > MAX_REFERENCES
  {
    refs, early := start, false;
    assert all + AllProjections(base, sources[..0]) == all;
    for i := 0 to |sources|
      invariant Agree(refs, all + AllProjections(base, sources[..i]))
    {
      if |refs| > MAX_REFERENCES {
        ProjectionsSplit(base, sources, i);
        EarlyReturn(refs, all + AllProjections(base, sources[..i]), all + AllProjections(base, sources));
        return refs, true;
      }
      refs := AppendProjection(refs, base, sources[i], all + AllProjections(base, sources[..i]));
      ProjectionsSnoc(all, base, sources, i);
    }
    assert sources[..|sources|] == sources;
  }

  lemma {:induction false} ProjectionsSplit(base: Reference, sources: seq<Projection>, i: nat)
    requires i <= |sources|
    ensures AllProjections(base, sources[..i]) <= AllProjections(base, sources)
  {
    if i < |sources| {
      ProjectionsSplit(base, sources[..|sources| - 1], i);
      assert sources[..|sources| - 1][..i] == sources[..i];
    } else {
      assert sources[..i] == sources;
    }
  }

  method EnvReferences(id: Identity, c: Container, env: EnvVar) returns (refs: seq<Reference>)
    ensures refs == EnvDeclared(id, c, env)
  {
    refs := [];
    if env.valueFrom.Some? {
      var from := env.valueFrom.value;
      if from.configMap.Some? {
        refs := refs + [Base(id).(kind := ConfigMapKind, name := from.configMap.value.name,
                                  key := from.configMap.value.key, container := c.name, variable := env.name,
                                  use := EnvUse, optional := Optional(from.configMap.value.optional))];
      }
      if from.secret.Some? {
        refs := refs + [Base(id).(kind := SecretKind, name := from.secret.value.name,
                                  key := from.secret.value.key, container := c.name, variable := env.name,
                                  use := EnvUse, optional := Optional(from.secret.value.optional))];
      }
    }
  }

  method EnvFromReferences(id: Identity, c: Container, from: EnvFrom) returns (refs: seq<Reference>)
    ensures refs == EnvFromDeclared(id, c, from)
  {
    refs := [];
    if from.configMap.Some? {
      refs := refs + [Base(id).(kind := ConfigMapKind, name := from.configMap.value.name, container := c.name,
                                use := EnvFromUse, prefix := from.prefix,
                                optional := Optional(from.configMap.value.optional))];
    }
    if from.secret.Some? {
      refs := refs + [Base(id).(kind := SecretKind, name := from.secret.value.name, container := c.name,
                                use := EnvFromUse, prefix := from.prefix,
                                optional := Optional(from.secret.value.optional))];
    }
  }

  /** The environment of a container; it stops as soon as it is past the bound. */
  method ContainerReferences(id: Identity, c: Container) returns (refs: seq<Reference>)
    ensures Agree(refs, AllEnv(id, c, c.env) + AllEnvFrom(id, c, c.envFrom))
  {
    refs := [];
    ghost var all := AllEnv(id, c, c.env) + AllEnvFrom(id, c, c.envFrom);
    for i := 0 to |c.env|
      invariant Agree(refs, AllEnv(id, c, c.env[..i]))
    {
      if |refs| > MAX_REFERENCES {
        EnvSplit(id, c, c.env, i);
        EarlyReturn(refs, AllEnv(id, c, c.env[..i]), all);
        return refs;
      }
      var added := EnvReferences(id, c, c.env[i]);
      AgreeAppend(refs, AllEnv(id, c, c.env[..i]), added, added);
      assert c.env[..i + 1][..i] == c.env[..i];
      refs := refs + added;
    }
    assert c.env[..|c.env|] == c.env;
    refs := AppendEnvFrom(refs, id, c, AllEnv(id, c, c.env));
  }

  method AppendEnvFrom(start: seq<Reference>, id: Identity, c: Container, ghost all: seq<Reference>)
    returns (refs: seq<Reference>)
    requires Agree(start, all)
    ensures Agree(refs, all + AllEnvFrom(id, c, c.envFrom))
  {
    refs := start;
    assert all + AllEnvFrom(id, c, c.envFrom[..0]) == all;
    for i := 0 to |c.envFrom|
      invariant Agree(refs, all + AllEnvFrom(id, c, c.envFrom[..i]))
    {
      ghost var part := all + AllEnvFrom(id, c, c.envFrom[..i]);
      if |refs| > MAX_REFERENCES {
        EnvFromSplit(id, c, c.envFrom, i);
        EarlyReturn(refs, part, all + AllEnvFrom(id, c, c.envFrom));
        return refs;
      }
      var added := EnvFromReferences(id, c, c.envFrom[i]);
      AgreeAppend(refs, part, added, added);
      assert c.envFrom[..i + 1][..i] == c.envFrom[..i];
      assert part + added == all + AllEnvFrom(id, c, c.envFrom[..i + 1]);
      refs := refs + added;
    }
    assert c.envFrom[..|c.envFrom|] == c.envFrom;
  }

  /** The volumes behind one mount, appended to what is there. */
  method MountReferences(start: seq<Reference>, id: Identity, c: string, m: Mount, volumes: seq<Volume>,
                         ghost all: seq<Reference>) returns (refs: seq<Reference>)
    requires Agree(start, all) && |start| <= MAX_REFERENCES
    ensures Agree(refs, all + MountDeclared(id, c, m, volumes)) && |refs| <= MAX_REFERENCES + 1
  {
    hide VolumeDeclared, Agree, First;
    refs := start;
    assert all + MountDeclared(id, c, m, volumes[..0]) == all;
    for k := 0 to |volumes|
      invariant Agree(refs, all + MountDeclared(id, c, m, volumes[..k])) && |refs| <= MAX_REFERENCES
    {
      assert volumes[..k + 1][..k] == volumes[..k];
      ghost var part := all + MountDeclared(id, c, m, volumes[..k]);
      if volumes[k].name == m.name {
        var added := VolumeReferences(id, c, m, volumes[k]);
        ghost var before := refs;
        refs := BoundedAppend(refs, added);
        BoundedAppendAgrees(before, part, added, VolumeDeclared(id, c, m, volumes[k]), refs);
        assert part + VolumeDeclared(id, c, m, volumes[k]) == all + MountDeclared(id, c, m, volumes[..k + 1]);
        if |refs| > MAX_REFERENCES {
          VolumesSplit(id, c, m, volumes, k + 1);
          EarlyReturn(refs, all + MountDeclared(id, c, m, volumes[..k + 1]), all + MountDeclared(id, c, m, volumes));
          return refs;
        }
      } else {
        assert all + MountDeclared(id, c, m, volumes[..k + 1]) == part;
      }
    }
    assert volumes[..|volumes|] == volumes;
  }

  method AppendMounts(start: seq<Reference>, id: Identity, c: string, mounts: seq<Mount>, volumes: seq<Volume>,
                      ghost all: seq<Reference>) returns (refs: seq<Reference>)
    requires Agree(start, all) && |start| <= MAX_REFERENCES
    ensures Agree(refs, all + AllMounts(id, c, mounts, volumes)) && |refs| <= MAX_REFERENCES + 1
  {
    refs := start;
    assert all + AllMounts(id, c, mounts[..0], volumes) == all;
    for j := 0 to |mounts|
      invariant Agree(refs, all + AllMounts(id, c, mounts[..j], volumes)) && |refs| <= MAX_REFERENCES
    {
      ghost var part := all + AllMounts(id, c, mounts[..j], volumes);
      refs := MountReferences(refs, id, c, mounts[j], volumes, part);
      assert mounts[..j + 1][..j] == mounts[..j];
      assert part + MountDeclared(id, c, mounts[j], volumes) == all + AllMounts(id, c, mounts[..j + 1], volumes);
      if |refs| > MAX_REFERENCES {
        MountsSplit(id, c, mounts, volumes, j + 1);
        EarlyReturn(refs, all + AllMounts(id, c, mounts[..j + 1], volumes), all + AllMounts(id, c, mounts, volumes));
        return refs;
      }
    }
    assert mounts[..|mounts|] == mounts;
  }

  /** One container: its environment, then its mounts. */
  method AppendContainer(start: seq<Reference>, id: Identity, c: Container, volumes: seq<Volume>,
                         ghost all: seq<Reference>) returns (refs: seq<Reference>)
    requires Agree(start, all) && |start| <= MAX_REFERENCES
    ensures Agree(refs, all + ContainerDeclared(id, c, volumes)) && |refs| <= MAX_REFERENCES + 1
  {
    ghost var env := AllEnv(id, c, c.env) + AllEnvFrom(id, c, c.envFrom);
    ghost var mounts := AllMounts(id, c.name, c.mounts, volumes);
    assert all + ContainerDeclared(id, c, volumes) == all + env + mounts;
    var added := ContainerReferences(id, c);
    refs := BoundedAppend(start, added);
    BoundedAppendAgrees(start, all, added, env, refs);
    if |refs| > MAX_REFERENCES {
      EarlyReturn(refs, all + env, all + env + mounts);
      return refs;
    }
    refs := AppendMounts(refs, id, c.name, c.mounts, volumes, all + env);
  }

  method AppendContainers(id: Identity, containers: seq<Container>, volumes: seq<Volume>) returns (refs: seq<Reference>)
    ensures Agree(refs, AllContainers(id, containers, volumes)) && |refs| <= MAX_REFERENCES + 1
  {
    refs := [];
    for i := 0 to |containers|
      invariant Agree(refs, AllContainers(id, containers[..i], volumes)) && |refs| <= MAX_REFERENCES
    {
      refs := AppendContainer(refs, id, containers[i], volumes, AllContainers(id, containers[..i], volumes));
      assert containers[..i + 1][..i] == containers[..i];
      if |refs| > MAX_REFERENCES {
        ContainersSplit(id, containers, volumes, i + 1);
        EarlyReturn(refs, AllContainers(id, containers[..i + 1], volumes), AllContainers(id, containers, volumes));
        return refs;
      }
    }
    assert containers[..|containers|] == containers;
  }

  method AppendPulls(head: seq<Reference>, id: Identity, names: seq<string>) returns (refs: seq<Reference>)
    requires |head| <= MAX_REFERENCES
    ensures refs == First(head + Pulls(id, names))
  {
    refs := head;
    ghost var pulls := Pulls(id, names);
    var n := Min(|names|, MAX_REFERENCES + 1);
    for i := 0 to n
      invariant refs == head + pulls[..i] && |refs| <= MAX_REFERENCES
    {
      refs := refs + [Base(id).(kind := SecretKind, name := names[i], use := ImagePullUse)];
      assert refs == head + pulls[..i + 1];
      if |refs| > MAX_REFERENCES {
        return refs;
      }
    }
  }

  /** The projection is exactly the beginning of the unbounded one: it exceeds the bound precisely when
      more is declared than the bound, and otherwise it is complete. */
  method References(consumer: Option<Identity>, spec: Option<PodSpec>) returns (refs: seq<Reference>)
    ensures consumer.None? || spec.None? ==> refs == []
    ensures consumer.Some? && spec.Some? ==>
              && refs == First(Declared(consumer.value, spec.value))
              && (|refs| > MAX_REFERENCES <==> |Declared(consumer.value, spec.value)| > MAX_REFERENCES)
  {
    if consumer.None? || spec.None? {
      return [];
    }
    var id, s := consumer.value, spec.value;
    var containers := s.initContainers + s.containers + s.ephemeralContainers;
    ghost var all := AllContainers(id, containers, s.volumes);
    refs := AppendContainers(id, containers, s.volumes);
    AgreeCases(refs, all);
    if |refs| > MAX_REFERENCES {
      EarlyReturn(refs, all, Declared(id, s));
      assert First(refs) == refs;
      return refs;
    }
    refs := AppendPulls(refs, id, s.imagePullSecrets);
  }

  // ---- Each simple projection of a beginning is a beginning of the simple projection ----

  lemma {:induction false} EnvSplit(id: Identity, c: Container, envs: seq<EnvVar>, i: nat)
    requires i <= |envs|
    ensures AllEnv(id, c, envs[..i]) <= AllEnv(id, c, envs)
  {
    if i < |envs| {
      EnvSplit(id, c, envs[..|envs| - 1], i);
      assert envs[..|envs| - 1][..i] == envs[..i];
    } else {
      assert envs[..i] == envs;
    }
  }

  lemma {:induction false} EnvFromSplit(id: Identity, c: Container, froms: seq<EnvFrom>, i: nat)
    requires i <= |froms|
    ensures AllEnvFrom(id, c, froms[..i]) <= AllEnvFrom(id, c, froms)
  {
    if i < |froms| {
      EnvFromSplit(id, c, froms[..|froms| - 1], i);
      assert froms[..|froms| - 1][..i] == froms[..i];
    } else {
      assert froms[..i] == froms;
    }
  }

  lemma {:induction false} VolumesSplit(id: Identity, c: string, m: Mount, volumes: seq<Volume>, i: nat)
    requires i <= |volumes|
    ensures MountDeclared(id, c, m, volumes[..i]) <= MountDeclared(id, c, m, volumes)
  {
    if i < |volumes| {
      VolumesSplit(id, c, m, volumes[..|volumes| - 1], i);
      assert volumes[..|volumes| - 1][..i] == volumes[..i];
    } else {
      assert volumes[..i] == volumes;
    }
  }

  lemma {:induction false} MountsSplit(id: Identity, c: string, mounts: seq<Mount>, volumes: seq<Volume>, i: nat)
    requires i <= |mounts|
    ensures AllMounts(id, c, mounts[..i], volumes) <= AllMounts(id, c, mounts, volumes)
  {
    if i < |mounts| {
      MountsSplit(id, c, mounts[..|mounts| - 1], volumes, i);
      assert mounts[..|mounts| - 1][..i] == mounts[..i];
    } else {
      assert mounts[..i] == mounts;
    }
  }

  lemma {:induction false} ContainersSplit(id: Identity, containers: seq<Container>, volumes: seq<Volume>, i: nat)
    requires i <= |containers|
    ensures AllContainers(id, containers[..i], volumes) <= AllContainers(id, containers, volumes)
  {
    if i < |containers| {
      ContainersSplit(id, containers[..|containers| - 1], volumes, i);
      assert containers[..|containers| - 1][..i] == containers[..i];
    } else {
      assert containers[..i] == containers;
    }
  }
}
