/**
 The `Vuetify` root object: it merges the user's options over the default
 preset and instantiates every service of the library once, recording each
 under the service's `property` name in the `framework` table.

 What the object takes from its surroundings is passed in explicitly as an
 `Environment`: the default preset, the deep-merge helper (whose internals are
 not part of this model) and the ordered list of service constructors.
 */
module Framework {

  /** A JavaScript value as it appears in a preset. */
  datatype Value =
    | Undefined
    | Null
    | Bool(b: bool)
    | Num(n: int)
    | Str(s: string)
    | Obj(fields: map<string, Value>)

  /** A plain object: the shape of presets and of the user's options. */
  type Dict = map<string, Value>

  const PresetKey := "preset"
  const RtlKey := "rtl"

  /** `Boolean(v)`. */
  predicate ToBoolean(v: Value) {
    match v
    case Undefined => false
    case Null => false
    case Bool(b) => b
    case Num(n) => n != 0
    case Str(s) => s != ""
    case Obj(_) => true
  }

  /** `d[key]`, which is `undefined` for a missing key. */
  function Property(d: Dict, key: string): (v: Value)
    ensures key !in d ==> v == Undefined
    ensures key in d ==> v == d[key]
  {
    if key in d then d[key] else Undefined
  }

  /** The `...userPreset` of `({ preset, ...userPreset })`: every option of
      the user's object except `preset`, unchanged. */
  function RestOf(user: Dict): (rest: Dict)
    ensures rest.Keys == user.Keys - {PresetKey}
    ensures forall k :: k in rest ==> rest[k] == user[k]
  {
    map k | k in user && k != PresetKey :: user[k]
  }

  /** A service constructor, under the name the services module exports it
      by, with the `property` it is registered under. */
  datatype ServiceDescriptor = ServiceDescriptor(name: string, property: string)

  /** The `property` names of a list of services. */
  function Properties(services: seq<ServiceDescriptor>): set<string> {
    set i | 0 <= i < |services| :: services[i].property
  }

  /** The position of the first service registered under `property`: the
      one `use` instantiates when several share that name. */
  function FirstWith(services: seq<ServiceDescriptor>, property: string): (k: nat)
    requires property in Properties(services)
    ensures k < |services| && services[k].property == property
    ensures forall j :: 0 <= j < k ==> services[j].property != property
  {
    if services[0].property == property then 0
    else
      var i :| 0 <= i < |services| && services[i].property == property;
      assert services[1..][i - 1].property == property;
      1 + FirstWith(services[1..], property)
  }

  /** Extending a list of services at the end does not change which service
      comes first for a name already present. */
  lemma FirstWithExtend(services: seq<ServiceDescriptor>, next: ServiceDescriptor, property: string)
    requires property in Properties(services)
    ensures property in Properties(services + [next])
    ensures FirstWith(services + [next], property) == FirstWith(services, property)
  {
    var k := FirstWith(services, property);
    assert (services + [next])[k] == services[k];
  }

  /** An object made by `new Service(preset)`. */
  class ServiceInstance {
    const descriptor: ServiceDescriptor
    const preset: Dict

    constructor (descriptor: ServiceDescriptor, preset: Dict)
      ensures this.descriptor == descriptor && this.preset == preset
    {
      this.descriptor := descriptor;
      this.preset := preset;
    }
  }

  /** An entry of the `framework` table: a service, or the `rtl` flag that is
      stored in the same table. */
  datatype Entry = Service(instance: ServiceInstance) | Flag(on: bool)

  /** What the object takes from the rest of the library. */
  datatype Environment = Environment(
    defaultPreset: Dict,
    mergeDeep: (Dict, Value) -> Dict,
    services: seq<ServiceDescriptor>)

  class Vuetify {
    const env: Environment
    var framework: map<string, Entry>
    var installed: set<string>
    var preset: Dict

    /** Every installed name has its entry in the table, and, apart from the
        `rtl` flag that `init` writes over its entry, that entry is a service. */
    ghost predicate Valid()
      reads this
    {
      && installed <= framework.Keys
      && forall p :: p in installed && p != RtlKey ==> framework[p].Service?
    }

    /** The default preset, merged first with the user's `preset` option and
        then with the rest of the user's options. */
    function MergePreset(user: Dict): (merged: Dict)
      ensures merged == env.mergeDeep(env.mergeDeep(env.defaultPreset, Property(user, PresetKey)), Obj(RestOf(user)))
    {
      var overrides := Property(user, PresetKey);
      var rest := RestOf(user);
      env.mergeDeep(env.mergeDeep(env.defaultPreset, overrides), Obj(rest))
    }

    /** With a merge that leaves a preset alone when given `undefined` or an
        empty object, `new Vuetify({})` keeps the default preset. */
    lemma MergePresetEmpty()
      requires forall d :: env.mergeDeep(d, Undefined) == d
      requires forall d :: env.mergeDeep(d, Obj(map[])) == d
      ensures MergePreset(map[]) == env.defaultPreset
    {
      assert RestOf(map[]) == map[];
    }

    /** Without a `preset` option, the default preset is merged with
        `undefined` and then with the user's whole object; with one, the
        second merge never sees the `preset` key. */
    lemma MergePresetOptions(user: Dict)
      ensures PresetKey !in user ==>
        MergePreset(user) == env.mergeDeep(env.mergeDeep(env.defaultPreset, Undefined), Obj(user))
      ensures PresetKey in user ==>
        MergePreset(user) == env.mergeDeep(env.mergeDeep(env.defaultPreset, user[PresetKey]), Obj(user - {PresetKey}))
    {
      if PresetKey !in user {
        assert RestOf(user) == user;
      } else {
        assert RestOf(user) == user - {PresetKey};
      }
    }

    constructor (env: Environment, userPreset: Dict)
      ensures this.env == env && Valid()
      ensures preset == MergePreset(userPreset)
      ensures installed == Properties(env.services)
      ensures framework.Keys == installed + {RtlKey}
      ensures framework[RtlKey] == Flag(ToBoolean(Property(preset, RtlKey)))
      ensures forall p :: p in installed && p != RtlKey ==>
        && framework[p].Service?
        && fresh(framework[p].instance)
        && framework[p].instance.preset == preset
        && framework[p].instance.descriptor == env.services[FirstWith(env.services, p)]
    {
      this.env := env;
      framework := map[];
      installed := {};
      preset := map[];
      new;
      Init(userPreset);
    }

    /** Replaces the preset with the merged one, installs every service not yet
        installed, and stores the `rtl` flag in the table without marking it
        installed. Services installed earlier keep their instance. */
    method Init(userPreset: Dict)
      requires Valid()
      // The back-reference at the end of each step is written into the entry
      // of the service's name, which must then hold an object.
      requires forall p :: p in installed && p in Properties(env.services) ==> framework[p].Service?
      modifies this
      ensures Valid()
      ensures preset == MergePreset(userPreset)
      ensures installed == old(installed) + Properties(env.services)
      ensures framework.Keys == old(framework.Keys) + Properties(env.services) + {RtlKey}
      ensures framework[RtlKey] == Flag(ToBoolean(Property(preset, RtlKey)))
      ensures forall p ::
        (p in old(framework) && p != RtlKey && (p in old(installed) || p !in Properties(env.services)))
        ==> framework[p] == old(framework[p])
      ensures forall p :: p in Properties(env.services) && p !in old(installed) && p != RtlKey ==>
        && framework[p].Service?
        && fresh(framework[p].instance)
        && framework[p].instance.preset == preset
        && framework[p].instance.descriptor == env.services[FirstWith(env.services, p)]
    {
      preset := MergePreset(userPreset);
      var services := env.services;
      for i := 0 to |services|
        invariant Valid()
        invariant preset == MergePreset(userPreset)
        invariant installed == old(installed) + Properties(services[..i])
        invariant framework.Keys == old(framework.Keys) + Properties(services[..i])
        invariant forall p ::
          (p in old(framework) && (p in old(installed) || p !in Properties(services[..i])))
          ==> framework[p] == old(framework[p])
        invariant forall p :: p in Properties(services[..i]) && p !in old(installed) ==>
          && framework[p].Service?
          && fresh(framework[p].instance)
          && framework[p].instance.preset == preset
          && framework[p].instance.descriptor == services[FirstWith(services[..i], p)]
      {
        var service := services[i];
        assert services[..i + 1] == services[..i] + [service];
        assert Properties(services[..i + 1]) == Properties(services[..i]) + {service.property};
        forall p | p in Properties(services[..i])
          ensures FirstWith(services[..i + 1], p) == FirstWith(services[..i], p)
        {
          FirstWithExtend(services[..i], service, p);
        }
        ghost var installedBefore := installed;
        Use(service);
        assert service.property !in installedBefore ==> FirstWith(services[..i + 1], service.property) == i;
        // The service's back-reference to the table is written into this
        // entry, which holds a service object.
        assert framework[service.property].Service? by {
          if service.property in old(installed) {
            assert services[i] == service && service.property in Properties(services);
          }
        }
      }
      assert services[..|services|] == services;
      framework := framework[RtlKey := Flag(ToBoolean(Property(preset, RtlKey)))];
    }

    /** Instantiates `service` with the current preset and records it, unless
        its `property` is already installed. */
    method Use(service: ServiceDescriptor)
      requires Valid()
      modifies this
      ensures Valid()
      ensures preset == old(preset)
      ensures installed == old(installed) + {service.property}
      ensures service.property in old(installed) ==> framework == old(framework)
      ensures service.property !in old(installed) ==>
        && framework.Keys == old(framework.Keys) + {service.property}
        && (forall p :: p in old(framework) && p != service.property ==> framework[p] == old(framework[p]))
        && framework[service.property].Service?
        && fresh(framework[service.property].instance)
        && framework[service.property].instance.descriptor == service
        && framework[service.property].instance.preset == preset
    {
      var property := service.property;
      if property in installed {
        return;
      }
      var instance := new ServiceInstance(service, preset);
      framework := framework[property := Service(instance)];
      installed := installed + {property};
    }
  }

  /** Calling `use` twice with the same service leaves the object exactly as
      one call does. */
  method UseTwice(v: Vuetify, service: ServiceDescriptor)
    requires v.Valid()
    modifies v
    ensures v.Valid()
    ensures v.preset == old(v.preset)
    ensures v.installed == old(v.installed) + {service.property}
    ensures service.property in old(v.installed) ==> v.framework == old(v.framework)
    ensures service.property !in old(v.installed) ==>
      && v.framework.Keys == old(v.framework.Keys) + {service.property}
      && (forall p :: p in old(v.framework) && p != service.property ==> v.framework[p] == old(v.framework[p]))
      && v.framework[service.property].Service?
      && fresh(v.framework[service.property].instance)
      && v.framework[service.property].instance.descriptor == service
      && v.framework[service.property].instance.preset == v.preset
  {
    v.Use(service);
    v.Use(service);
  }
}
