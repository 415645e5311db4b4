/** What a pod specification declares, field by field: the unbounded projection as a set of references. */
module ConfigDeclared {
  import opened Wrappers
  import opened ConfigReferences

  predicate IsTrue(value: Option<bool>) { value == Some(true) }

  // ---- The five kinds of reference ----

  /** A variable whose value comes from a key. */
  predicate FromVariable(id: Identity, c: Container, e: EnvVar, d: Reference) {
    && e.valueFrom.Some?
    && var (cm, secret) := (e.valueFrom.value.configMap, e.valueFrom.value.secret);
       || (cm.Some? && d == Reference(id, ConfigMapKind, cm.value.name, cm.value.key, c.name, e.name, EnvUse,
                                      "", "", "", IsTrue(cm.value.optional), false))
       || (secret.Some? && d == Reference(id, SecretKind, secret.value.name, secret.value.key, c.name, e.name, EnvUse,
                                          "", "", "", IsTrue(secret.value.optional), false))
  }

  /** Variables that come from a whole configuration. */
  predicate FromWhole(id: Identity, c: Container, f: EnvFrom, d: Reference) {
    || (f.configMap.Some? && d == Reference(id, ConfigMapKind, f.configMap.value.name, "", c.name, "", EnvFromUse,
                                            "", "", f.prefix, IsTrue(f.configMap.value.optional), false))
    || (f.secret.Some? && d == Reference(id, SecretKind, f.secret.value.name, "", c.name, "", EnvFromUse,
                                         "", "", f.prefix, IsTrue(f.secret.value.optional), false))
  }

  /** A key of a mounted configuration under its path, or the whole of it where both are empty. */
  predicate FromPart(id: Identity, c: string, m: Mount, kind: Kind, s: ItemSource, key: string, path: string,
                     d: Reference) {
    d == Reference(id, kind, s.name, key, c, "", VolumeUse, m.mountPath, path, "", IsTrue(s.optional),
                   m.subPath != "" || m.subPathExpr != "")
  }

  /** A mounted configuration: as a whole, or each of the items selected from it. */
  predicate FromSource(id: Identity, c: string, m: Mount, kind: Kind, source: Option<ItemSource>, d: Reference) {
    && source.Some?
    && (if source.value.items == [] then FromPart(id, c, m, kind, source.value, "", "", d)
        else exists x :: x in source.value.items && FromPart(id, c, m, kind, source.value, x.key, x.path, d))
  }

  predicate FromProjection(id: Identity, c: string, m: Mount, p: Projection, d: Reference) {
    FromSource(id, c, m, ConfigMapKind, p.configMap, d) || FromSource(id, c, m, SecretKind, p.secret, d)
  }

  predicate FromVolume(id: Identity, c: string, m: Mount, v: Volume, d: Reference) {
    || FromSource(id, c, m, ConfigMapKind, v.configMap, d)
    || FromSource(id, c, m, SecretKind, v.secret, d)
    || (v.projected.Some? && exists p :: p in v.projected.value && FromProjection(id, c, m, p, d))
    || (v.csi.Some? && v.csi.value.nodePublishSecret.Some?
        && d == Reference(id, SecretKind, v.csi.value.nodePublishSecret.value, "", c, "", NodePublishUse, m.mountPath,
                          "", "", false, m.subPath != "" || m.subPathExpr != ""))
  }

  predicate FromMount(id: Identity, c: string, m: Mount, volumes: seq<Volume>, d: Reference) {
    exists v :: v in volumes && v.name == m.name && FromVolume(id, c, m, v, d)
  }

  predicate FromContainer(id: Identity, c: Container, volumes: seq<Volume>, d: Reference) {
    || (exists e :: e in c.env && FromVariable(id, c, e, d))
    || (exists f :: f in c.envFrom && FromWhole(id, c, f, d))
    || (exists m :: m in c.mounts && FromMount(id, c.name, m, volumes, d))
  }

  predicate FromPull(id: Identity, name: string, d: Reference) {
    d == Reference(id, SecretKind, name, "", "", "", ImagePullUse, "", "", "", false, false)
  }

  // ---- Each part of the projection ----

  lemma {:induction false} InEither(a: seq<Reference>, b: seq<Reference>, d: Reference)
    ensures d in a + b <==> d in a || d in b
  {
  }

  lemma {:induction false} EnvIff(id: Identity, c: Container, e: EnvVar, d: Reference)
    ensures d in EnvDeclared(id, c, e) <==> FromVariable(id, c, e, d)
  {
    if e.valueFrom.Some? {
      InEither(KeyDeclared(id, c, e, ConfigMapKind, e.valueFrom.value.configMap),
               KeyDeclared(id, c, e, SecretKind, e.valueFrom.value.secret), d);
    }
  }

  lemma {:induction false} AllEnvIff(id: Identity, c: Container, envs: seq<EnvVar>, d: Reference)
    ensures d in AllEnv(id, c, envs) <==> exists e :: e in envs && FromVariable(id, c, e, d)
  {
    if envs != [] {
      hide EnvDeclared, FromVariable;
      var n := |envs| - 1;
      AllEnvIff(id, c, envs[..n], d);
      EnvIff(id, c, envs[n], d);
      assert envs == envs[..n] + [envs[n]];
      InEither(AllEnv(id, c, envs[..n]), EnvDeclared(id, c, envs[n]), d);
    }
  }

  lemma {:induction false} EnvFromIff(id: Identity, c: Container, f: EnvFrom, d: Reference)
    ensures d in EnvFromDeclared(id, c, f) <==> FromWhole(id, c, f, d)
  {
    InEither(SourceDeclared(id, c, f.prefix, ConfigMapKind, f.configMap),
             SourceDeclared(id, c, f.prefix, SecretKind, f.secret), d);
  }

  lemma {:induction false} AllEnvFromIff(id: Identity, c: Container, froms: seq<EnvFrom>, d: Reference)
    ensures d in AllEnvFrom(id, c, froms) <==> exists f :: f in froms && FromWhole(id, c, f, d)
  {
    if froms != [] {
      hide EnvFromDeclared, FromWhole;
      var n := |froms| - 1;
      AllEnvFromIff(id, c, froms[..n], d);
      EnvFromIff(id, c, froms[n], d);
      assert froms == froms[..n] + [froms[n]];
      InEither(AllEnvFrom(id, c, froms[..n]), EnvFromDeclared(id, c, froms[n]), d);
    }
  }

  lemma {:induction false} ItemsIff(id: Identity, c: string, m: Mount, kind: Kind, s: ItemSource, ref: Reference,
                                    d: Reference)
    requires FromPart(id, c, m, kind, s, "", "", ref)
    ensures d in AllItems(ref, s.items) <==> exists x :: x in s.items && FromPart(id, c, m, kind, s, x.key, x.path, d)
  {
    var all := AllItems(ref, s.items);
    if d in all {
      var i :| 0 <= i < |all| && all[i] == d;
      assert s.items[i] in s.items && d == ref.(key := s.items[i].key, itemPath := s.items[i].path);
    }
    if x :| x in s.items && FromPart(id, c, m, kind, s, x.key, x.path, d) {
      var i :| 0 <= i < |s.items| && s.items[i] == x;
      assert all[i] == ref.(key := x.key, itemPath := x.path) == d;
    }
  }

  lemma {:induction false} SourceIff(id: Identity, c: string, m: Mount, kind: Kind, source: Option<ItemSource>,
                                     d: Reference)
    ensures d in ItemsDeclared(MountBase(id, c, m), kind, source) <==> FromSource(id, c, m, kind, source, d)
  {
    if source.Some? {
      hide AllItems;
      var s := source.value;
      var ref := MountBase(id, c, m).(kind := kind, name := s.name, optional := Optional(s.optional));
      assert FromPart(id, c, m, kind, s, "", "", ref);
      if s.items != [] { ItemsIff(id, c, m, kind, s, ref, d); }
    }
  }

  lemma {:induction false} ProjectionIff(id: Identity, c: string, m: Mount, p: Projection, d: Reference)
    ensures d in OneProjection(MountBase(id, c, m), p) <==> FromProjection(id, c, m, p, d)
  {
    hide ItemsDeclared, FromSource, MountBase;
    var base := MountBase(id, c, m);
    SourceIff(id, c, m, ConfigMapKind, p.configMap, d);
    SourceIff(id, c, m, SecretKind, p.secret, d);
    InEither(ItemsDeclared(base, ConfigMapKind, p.configMap), ItemsDeclared(base, SecretKind, p.secret), d);
  }

  lemma {:induction false} ProjectionsIff(id: Identity, c: string, m: Mount, sources: seq<Projection>, d: Reference)
    ensures d in AllProjections(MountBase(id, c, m), sources) <==>
              exists p :: p in sources && FromProjection(id, c, m, p, d)
  {
    var base := MountBase(id, c, m);
    if sources == [] {
      assert AllProjections(base, sources) == [];
    } else {
      hide ItemsDeclared, FromProjection, MountBase;
      var n := |sources| - 1;
      ProjectionsIff(id, c, m, sources[..n], d);
      ProjectionIff(id, c, m, sources[n], d);
      assert sources == sources[..n] + [sources[n]];
      assert AllProjections(base, sources) == AllProjections(base, sources[..n]) + OneProjection(base, sources[n]);
      InEither(AllProjections(base, sources[..n]), OneProjection(base, sources[n]), d);
    }
  }

  lemma {:induction false} VolumeIff(id: Identity, c: string, m: Mount, v: Volume, d: Reference)
    ensures d in VolumeDeclared(id, c, m, v) <==> FromVolume(id, c, m, v, d)
  {
    hide ItemsDeclared, AllProjections, FromSource, FromProjection;
    var base := MountBase(id, c, m);
    var x, y := ItemsDeclared(base, ConfigMapKind, v.configMap), ItemsDeclared(base, SecretKind, v.secret);
    var z := if v.projected.Some? then AllProjections(base, v.projected.value) else [];
    var last := if v.csi.Some? && v.csi.value.nodePublishSecret.Some?
                then [base.(kind := SecretKind, name := v.csi.value.nodePublishSecret.value, use := NodePublishUse)]
                else [];
    SourceIff(id, c, m, ConfigMapKind, v.configMap, d);
    SourceIff(id, c, m, SecretKind, v.secret, d);
    if v.projected.Some? { ProjectionsIff(id, c, m, v.projected.value, d); }
    InEither(x, y, d);
    InEither(x + y, z, d);
    InEither(x + y + z, last, d);
    assert VolumeDeclared(id, c, m, v) == x + y + z + last;
  }

  lemma {:induction false} MountIff(id: Identity, c: string, m: Mount, volumes: seq<Volume>, d: Reference)
    ensures d in MountDeclared(id, c, m, volumes) <==> FromMount(id, c, m, volumes, d)
  {
    if volumes != [] {
      hide VolumeDeclared, FromVolume;
      var n := |volumes| - 1;
      var last := if volumes[n].name == m.name then VolumeDeclared(id, c, m, volumes[n]) else [];
      MountIff(id, c, m, volumes[..n], d);
      VolumeIff(id, c, m, volumes[n], d);
      assert volumes == volumes[..n] + [volumes[n]];
      InEither(MountDeclared(id, c, m, volumes[..n]), last, d);
    }
  }

  lemma {:induction false} AllMountsIff(id: Identity, c: string, mounts: seq<Mount>, volumes: seq<Volume>, d: Reference)
    ensures d in AllMounts(id, c, mounts, volumes) <==> exists m :: m in mounts && FromMount(id, c, m, volumes, d)
  {
    if mounts != [] {
      hide MountDeclared, FromMount;
      var n := |mounts| - 1;
      AllMountsIff(id, c, mounts[..n], volumes, d);
      MountIff(id, c, mounts[n], volumes, d);
      assert mounts == mounts[..n] + [mounts[n]];
      InEither(AllMounts(id, c, mounts[..n], volumes), MountDeclared(id, c, mounts[n], volumes), d);
    }
  }

  lemma {:induction false} ContainerIff(id: Identity, c: Container, volumes: seq<Volume>, d: Reference)
    ensures d in ContainerDeclared(id, c, volumes) <==> FromContainer(id, c, volumes, d)
  {
    hide AllEnv, AllEnvFrom, AllMounts, FromVariable, FromWhole, FromMount;
    AllEnvIff(id, c, c.env, d);
    AllEnvFromIff(id, c, c.envFrom, d);
    AllMountsIff(id, c.name, c.mounts, volumes, d);
    InEither(AllEnv(id, c, c.env), AllEnvFrom(id, c, c.envFrom), d);
    InEither(AllEnv(id, c, c.env) + AllEnvFrom(id, c, c.envFrom), AllMounts(id, c.name, c.mounts, volumes), d);
  }

  predicate FromAny(id: Identity, containers: seq<Container>, volumes: seq<Volume>, d: Reference) {
    exists c :: c in containers && FromContainer(id, c, volumes, d)
  }

  lemma {:induction false} FromAnyLast(id: Identity, containers: seq<Container>, last: Container, volumes: seq<Volume>,
                                       d: Reference)
    ensures FromAny(id, containers + [last], volumes, d) <==>
              FromAny(id, containers, volumes, d) || FromContainer(id, last, volumes, d)
  {
    hide FromContainer;
    assert last in containers + [last];
    assert forall c :: c in containers ==> c in containers + [last];
  }

  lemma {:induction false} ContainersIff(id: Identity, containers: seq<Container>, volumes: seq<Volume>, d: Reference)
    ensures d in AllContainers(id, containers, volumes) <==> FromAny(id, containers, volumes, d)
  {
    if containers != [] {
      hide ContainerDeclared, FromContainer, FromAny;
      var n := |containers| - 1;
      ContainersIff(id, containers[..n], volumes, d);
      ContainerIff(id, containers[n], volumes, d);
      assert containers == containers[..n] + [containers[n]];
      FromAnyLast(id, containers[..n], containers[n], volumes, d);
      InEither(AllContainers(id, containers[..n], volumes), ContainerDeclared(id, containers[n], volumes), d);
    }
  }

  lemma {:induction false} PullAt(id: Identity, names: seq<string>, i: nat)
    requires i < |names|
    ensures |Pulls(id, names)| == |names| && FromPull(id, names[i], Pulls(id, names)[i])
  {
    var d := Base(id).(kind := SecretKind, name := names[i], use := ImagePullUse);
    assert Pulls(id, names)[i] == d;
    assert d == Reference(id, SecretKind, names[i], "", "", "", ImagePullUse, "", "", "", false, false);
  }

  lemma {:induction false} PullsIff(id: Identity, names: seq<string>, d: Reference)
    ensures d in Pulls(id, names) <==> exists name :: name in names && FromPull(id, name, d)
  {
    var all := Pulls(id, names);
    if d in all {
      var i :| 0 <= i < |all| && all[i] == d;
      PullAt(id, names, i);
      assert names[i] in names && FromPull(id, names[i], d);
    }
    if name :| name in names && FromPull(id, name, d) {
      var i :| 0 <= i < |names| && names[i] == name;
      PullAt(id, names, i);
      assert all[i] == d;
    }
  }

  /** A specification declares exactly this: what the environment and the mounts of any of its containers refer
      to, initial and ephemeral ones included, and the Secrets its images are pulled with. */
  lemma {:induction false} DeclaredIff(id: Identity, spec: PodSpec, d: Reference)
    ensures d in Declared(id, spec) <==>
              || (exists c :: (c in spec.initContainers || c in spec.containers || c in spec.ephemeralContainers)
                              && FromContainer(id, c, spec.volumes, d))
              || (exists name :: name in spec.imagePullSecrets && FromPull(id, name, d))
  {
    hide AllContainers, Pulls, FromContainer, FromPull;
    var containers := spec.initContainers + spec.containers + spec.ephemeralContainers;
    ContainersIff(id, containers, spec.volumes, d);
    PullsIff(id, spec.imagePullSecrets, d);
    InEither(AllContainers(id, containers, spec.volumes), Pulls(id, spec.imagePullSecrets), d);
    assert forall c :: c in containers <==>
                         c in spec.initContainers || c in spec.containers || c in spec.ephemeralContainers;
  }
}
