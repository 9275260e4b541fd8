/**
 * The proxy chain kept as `dialer-proxy` links inside the unordered proxy list: the writer
 * `update_proxy_chain_config` and the reader `get_runtime_proxy_chain_config`; and `patch_config`, which
 * edits other keys of the same configuration.
 *
 * YAML mappings have string keys here and their key order is not modelled.
 */
module ProxyChain {
  import opened Options

  datatype Value =
    | Null
    | Bool(flag: bool)
    | Number(number: int)
    | Str(text: string)
    | Sequence(items: seq<Value>)
    | Mapping(entries: map<string, Value>)

  const NAME := "name"
  const DIALER := "dialer-proxy"
  const PROXIES := "proxies"

  /** `value.get(key)`: nothing unless the value is a mapping with that key. */
  function Get(v: Value, key: string): Option<Value> {
    if v.Mapping? && key in v.entries then Some(v.entries[key]) else None
  }

  /** `.map(|x| x.as_str())`. */
  function Text(v: Option<Value>): Option<Option<string>> {
    if v.None? then None else Some(if v.value.Str? then Some(v.value.text) else None)
  }

  function NameOf(proxy: Value): Option<Option<string>> { Text(Get(proxy, NAME)) }

  // ----- The writer -----

  function Unlinked(proxy: Value): Value {
    if proxy.Mapping? then Mapping(proxy.entries - {DIALER}) else proxy
  }

  function Linked(proxy: Value, link: Option<Value>): Value {
    if proxy.Mapping? && link.Some? then Mapping(proxy.entries[DIALER := link.value]) else proxy
  }

  /** Position of the first proxy whose name is `name`; the length when there is none. */
  function FirstNamed(proxies: seq<Value>, name: Value): (p: nat)
    ensures p <= |proxies|
    ensures p < |proxies| ==> Get(proxies[p], NAME) == Some(name)
    ensures forall q :: 0 <= q < p ==> Get(proxies[q], NAME) != Some(name)
  {
    if |proxies| == 0 || Get(proxies[0], NAME) == Some(name) then 0 else 1 + FirstNamed(proxies[1..], name)
  }

  /** The link proxy `p` ends with: the predecessor of the last of the first `n` chain entries that names it. */
  function LinkOf(proxies: seq<Value>, chain: seq<Value>, n: nat, p: nat): Option<Value>
    requires n <= |chain|
  {
    if n <= 1 then None
    else if FirstNamed(proxies, chain[n - 1]) == p then Some(chain[n - 2])
    else LinkOf(proxies, chain, n - 1, p)
  }

  function WithLinks(proxies: seq<Value>, chain: seq<Value>, n: nat): (r: seq<Value>)
    requires n <= |chain|
    ensures |r| == |proxies|
  {
    seq(|proxies|, p requires 0 <= p < |proxies| => Linked(Unlinked(proxies[p]), LinkOf(proxies, chain, n, p)))
  }

  function EntriesOf(chain: Option<Value>): seq<Value> {
    if chain.Some? && chain.value.Sequence? then chain.value.items else []
  }

  /** The proxy list after an update. */
  function Rewritten(proxies: seq<Value>, chain: Option<Value>): seq<Value> {
    WithLinks(proxies, EntriesOf(chain), |EntriesOf(chain)|)
  }

  /** The whole configuration after an update: only a `proxies` sequence changes. */
  function Updated(config: Option<map<string, Value>>, chain: Option<Value>): Option<map<string, Value>> {
    if config.Some? && PROXIES in config.value && config.value[PROXIES].Sequence?
    then Some(config.value[PROXIES := Sequence(Rewritten(config.value[PROXIES].items, chain))])
    else config
  }

  /** Handling one more chain entry relinks the proxy it names, unless it is the first entry or names nobody. */
  lemma NextLink(proxies: seq<Value>, chain: seq<Value>, n: nat)
    requires n < |chain|
    ensures var p := FirstNamed(proxies, chain[n]);
            WithLinks(proxies, chain, n + 1) ==
              if n == 0 || p == |proxies| then WithLinks(proxies, chain, n)
              else WithLinks(proxies, chain, n)[p := Linked(WithLinks(proxies, chain, n)[p], Some(chain[n - 1]))]
  {
    var p := FirstNamed(proxies, chain[n]);
    forall q | 0 <= q < |proxies|
      ensures WithLinks(proxies, chain, n + 1)[q] ==
        if n != 0 && q == p then Linked(WithLinks(proxies, chain, n)[q], Some(chain[n - 1]))
        else WithLinks(proxies, chain, n)[q]
    {
      if n != 0 && q == p {
        Relinking(Unlinked(proxies[q]), LinkOf(proxies, chain, n, q), chain[n - 1]);
      }
    }
  }

  lemma Relinking(proxy: Value, first: Option<Value>, link: Value)
    ensures Linked(Linked(proxy, first), Some(link)) == Linked(proxy, Some(link))
  {
    if proxy.Mapping? && first.Some? {
      assert proxy.entries[DIALER := first.value][DIALER := link] == proxy.entries[DIALER := link];
    }
  }

  class IRuntime {
    var config: Option<map<string, Value>>

    constructor (config: Option<map<string, Value>>)
      ensures this.config == config
    {
      this.config := config;
    }

    /** `update_proxy_chain_config`: the clearing loop, then the linking loop. */
    method UpdateProxyChainConfig(chain: Option<Value>)
      modifies this
      ensures config == Updated(old(config), chain)
    {
      if config.None? || PROXIES !in config.value || !config.value[PROXIES].Sequence? {
        return;
      }
      var proxies := config.value[PROXIES].items;
      ghost var was := proxies;
      for i := 0 to |proxies|
        invariant config == old(config) && |proxies| == |was|
        invariant forall p :: 0 <= p < |was| ==> proxies[p] == if p < i then Unlinked(was[p]) else was[p]
      {
        if proxies[i].Mapping? && DIALER in proxies[i].entries {
          proxies := proxies[i := Mapping(proxies[i].entries - {DIALER})];
        } else {
          assert Unlinked(proxies[i]) == proxies[i];
        }
      }
      assert proxies == WithLinks(was, [], 0);
      if chain.Some? && chain.value.Sequence? {
        var entries := chain.value.items;
        for i := 0 to |entries|
          invariant config == old(config) && proxies == WithLinks(was, entries, i)
        {
          NamesAreKept(was, entries, i, entries[i]);
          NextLink(was, entries, i);
          var p := FirstNamed(proxies, entries[i]);
          if p < |proxies| && i != 0 && proxies[p].Mapping? {
            proxies := proxies[p := Mapping(proxies[p].entries[DIALER := entries[i - 1]])];
          }
        }
      }
      config := Some(config.value[PROXIES := Sequence(proxies)]);
    }

    /** `patch_config`: the listed keys, then the keys of the `tun` mapping. */
    method PatchConfig(patch: map<string, Value>)
      modifies this
      ensures config == Patched(old(config), patch)
    {
      if config.None? {
        return;
      }
      ghost var was, done: set<string> := config.value, {};
      OverlayNothing(was, patch);
      for i := 0 to |PATCH_KEYS|
        invariant config == Some(Overlaid(was, patch, done))
        invariant forall key :: key in done <==> key in PATCH_KEYS[..i]
      {
        OverlayOneMore(was, patch, done, PATCH_KEYS[i]);
        assert PATCH_KEYS[..i + 1] == PATCH_KEYS[..i] + [PATCH_KEYS[i]];
        done := done + {PATCH_KEYS[i]};
        if PATCH_KEYS[i] in patch {
          config := Some(config.value[PATCH_KEYS[i] := patch[PATCH_KEYS[i]]]);
        }
      }
      assert PATCH_KEYS[..|PATCH_KEYS|] == PATCH_KEYS;
      assert done == PatchKeySet();
      if TUN !in patch {
        return;
      }
      ghost var copied := config.value;
      if TUN !in config.value || !config.value[TUN].Mapping? {
        config := Some(config.value[TUN := Mapping(map[])]);
      }
      assert config.value == copied[TUN := Mapping(TunOf(copied))];
      if patch[TUN].Mapping? {
        var tun := PatchTun(config.value[TUN].entries, patch[TUN].entries);
        config := Some(config.value[TUN := Mapping(tun)]);
        assert config.value == copied[TUN := Mapping(tun)];
      }
    }

    /** The loop over the keys of a `tun` patch, each taken in lower case. */
    static method PatchTun(was: map<string, Value>, patch: map<string, Value>) returns (tun: map<string, Value>)
      ensures tun == TunPatched(was, patch)
    {
      tun := was;
      var rest := patch.Keys;
      ghost var lowered: set<string> := {};
      OverlayNothing(was, patch);
      while rest != {}
        invariant rest <= patch.Keys && tun == Overlaid(was, patch, lowered)
        invariant forall key :: key in patch.Keys - rest ==> Lower(key) in lowered
        invariant forall key :: key in lowered ==> Lower(key) == key
        decreases |rest|
      {
        var key :| key in rest;
        rest := rest - {key};
        var lower := Lower(key);
        LowerTwice(key);
        OverlayOneMore(was, patch, lowered, lower);
        lowered := lowered + {lower};
        if lower in patch {
          tun := tun[lower := patch[lower]];
        }
      }
      SameOverlay(was, patch, lowered, LowerKeys(patch));
    }
  }

  // ----- Patches from the settings -----

  const TUN := "tun"
  const PATCH_KEYS: seq<string> := ["allow-lan", "ipv6", "log-level", "unified-delay", "tunnels"]

  function LowerChar(c: char): char { if 'A' <= c <= 'Z' then (c as int + 32) as char else c }

  function Lower(s: string): (r: string)
    ensures |r| == |s| && forall i :: 0 <= i < |s| ==> r[i] == LowerChar(s[i])
  {
    seq(|s|, i requires 0 <= i < |s| => LowerChar(s[i]))
  }

  lemma LowerTwice(s: string)
    ensures Lower(Lower(s)) == Lower(s)
  {
  }

  function PatchKeySet(): set<string> { set key | key in PATCH_KEYS }

  /** `was` with the values that `patch` has for `keys`. */
  function Overlaid(was: map<string, Value>, patch: map<string, Value>, keys: set<string>): map<string, Value> {
    was + map key | key in patch && key in keys :: patch[key]
  }

  lemma OverlayNothing(was: map<string, Value>, patch: map<string, Value>)
    ensures Overlaid(was, patch, {}) == was
  {
  }

  lemma OverlayOneMore(was: map<string, Value>, patch: map<string, Value>, keys: set<string>, key: string)
    ensures Overlaid(was, patch, keys + {key}) ==
      if key in patch then Overlaid(was, patch, keys)[key := patch[key]] else Overlaid(was, patch, keys)
  {
  }

  lemma SameOverlay(was: map<string, Value>, patch: map<string, Value>, a: set<string>, b: set<string>)
    requires forall key :: key in patch ==> (key in a <==> key in b)
    ensures Overlaid(was, patch, a) == Overlaid(was, patch, b)
  {
  }

  function LowerKeys(patch: map<string, Value>): set<string> { set key | key in patch && Lower(key) == key }

  /** Only keys written in lower case are taken from a `tun` patch. */
  function TunPatched(tun: map<string, Value>, patch: map<string, Value>): map<string, Value> {
    Overlaid(tun, patch, LowerKeys(patch))
  }

  function Copied(config: map<string, Value>, patch: map<string, Value>): map<string, Value> {
    Overlaid(config, patch, PatchKeySet())
  }

  /** The entries of the `tun` mapping; none if it is missing or not a mapping. */
  function TunOf(config: map<string, Value>): map<string, Value> {
    if TUN in config && config[TUN].Mapping? then config[TUN].entries else map[]
  }

  function WithTun(config: map<string, Value>, patch: map<string, Value>): map<string, Value> {
    if TUN !in patch then config
    else
      var tun := TunOf(config);
      config[TUN := Mapping(if patch[TUN].Mapping? then TunPatched(tun, patch[TUN].entries) else tun)]
  }

  function Patched(config: Option<map<string, Value>>, patch: map<string, Value>): Option<map<string, Value>> {
    if config.None? then None else Some(WithTun(Copied(config.value, patch), patch))
  }

  lemma KeysApart()
    ensures PROXIES !in PATCH_KEYS && TUN !in PATCH_KEYS && PROXIES != TUN
  {
    assert PROXIES[0] != "tunnels"[0];
    assert |TUN| == 3;
  }

  lemma PatchIgnoresProxies(config: map<string, Value>, patch: map<string, Value>, proxies: Value)
    ensures WithTun(Copied(config[PROXIES := proxies], patch), patch) ==
        WithTun(Copied(config, patch), patch)[PROXIES := proxies]
  {
    KeysApart();
    var copied := Copied(config, patch);
    assert Copied(config[PROXIES := proxies], patch) == copied[PROXIES := proxies];
    TunIgnoresProxies(copied, patch, proxies);
  }

  lemma TunIgnoresProxies(config: map<string, Value>, patch: map<string, Value>, proxies: Value)
    requires PROXIES != TUN
    ensures WithTun(config[PROXIES := proxies], patch) == WithTun(config, patch)[PROXIES := proxies]
  {
    assert TunOf(config[PROXIES := proxies]) == TunOf(config);
  }

  lemma PatchKeepsProxies(config: map<string, Value>, patch: map<string, Value>)
    ensures PROXIES in WithTun(Copied(config, patch), patch) <==> PROXIES in config
    ensures PROXIES in config ==> WithTun(Copied(config, patch), patch)[PROXIES] == config[PROXIES]
  {
    KeysApart();
  }

  /** A patch and a chain update touch different keys, so it does not matter which comes first. */
  lemma PatchAndChainCommute(config: Option<map<string, Value>>, patch: map<string, Value>, chain: Option<Value>)
    ensures Patched(Updated(config, chain), patch) == Updated(Patched(config, patch), chain)
  {
    if config.Some? {
      var proxies :=
        if PROXIES in config.value && config.value[PROXIES].Sequence?
        then Sequence(Rewritten(config.value[PROXIES].items, chain)) else Null;
      PatchIgnoresProxies(config.value, patch, proxies);
      PatchKeepsProxies(config.value, patch);
    }
  }

  lemma ListedKeys(key: string)
    ensures key in PatchKeySet() <==> key in {"allow-lan", "ipv6", "log-level", "unified-delay", "tunnels"}
  {
    assert PATCH_KEYS == ["allow-lan", "ipv6", "log-level", "unified-delay", "tunnels"];
    assert PATCH_KEYS[0] in PATCH_KEYS && PATCH_KEYS[1] in PATCH_KEYS && PATCH_KEYS[2] in PATCH_KEYS;
    assert PATCH_KEYS[3] in PATCH_KEYS && PATCH_KEYS[4] in PATCH_KEYS;
  }

  /** A patch sets the five listed keys it has, and of the others no key but `tun`, and that only if it has it. */
  lemma PatchSetsKeys(config: map<string, Value>, patch: map<string, Value>, key: string)
    ensures var after := Patched(Some(config), patch);
            && after.Some?
            && (key in {"allow-lan", "ipv6", "log-level", "unified-delay", "tunnels"} && key in patch ==>
                  key in after.value && after.value[key] == patch[key])
            && (!(key in {"allow-lan", "ipv6", "log-level", "unified-delay", "tunnels"} && key in patch) &&
                !(key == "tun" && "tun" in patch) ==>
                  && (key in after.value <==> key in config)
                  && (key in config ==> after.value[key] == config[key]))
  {
    KeysApart();
    ListedKeys(key);
  }

  /** `value` has under `key` what `was` has, unless `patch` sets that key. */
  ghost predicate SetsKey(value: map<string, Value>, was: map<string, Value>, patch: map<string, Value>, key: string) {
    var sets := key in patch && forall i :: 0 <= i < |key| ==> !('A' <= key[i] <= 'Z');
    && (key in value <==> sets || key in was)
    && (sets ==> value[key] == patch[key])
    && (!sets && key in was ==> value[key] == was[key])
  }

  /**
   * With `tun` in the patch the configuration has a `tun` mapping: the one it had, if any, with the keys of
   * the patch that are written without capitals.
   */
  lemma PatchMergesTun(config: map<string, Value>, patch: map<string, Value>, key: string)
    requires "tun" in patch
    ensures var after := Patched(Some(config), patch);
            && after.Some? && "tun" in after.value && after.value["tun"].Mapping?
            && SetsKey(after.value["tun"].entries,
                 if "tun" in config && config["tun"].Mapping? then config["tun"].entries else map[],
                 if patch["tun"].Mapping? then patch["tun"].entries else map[], key)
  {
    KeysApart();
    ListedKeys("tun");
    LowerIsKept(key);
  }

  lemma LowerIsKept(key: string)
    ensures Lower(key) == key <==> forall i :: 0 <= i < |key| ==> !('A' <= key[i] <= 'Z')
  {
    if i :| 0 <= i < |key| && 'A' <= key[i] <= 'Z' {
      assert Lower(key)[i] != key[i];
    }
  }

  lemma OverlayTwice(was: map<string, Value>, patch: map<string, Value>, keys: set<string>)
    ensures Overlaid(Overlaid(was, patch, keys), patch, keys) == Overlaid(was, patch, keys)
  {
  }

  /** Applying a patch twice is applying it once. */
  lemma PatchIsIdempotent(config: Option<map<string, Value>>, patch: map<string, Value>)
    ensures Patched(Patched(config, patch), patch) == Patched(config, patch)
  {
    KeysApart();
    if config.Some? {
      var copied := Copied(config.value, patch);
      var once := WithTun(copied, patch);
      OverlayTwice(config.value, patch, PatchKeySet());
      assert Copied(once, patch) == once;
      if TUN in patch {
        if patch[TUN].Mapping? {
          OverlayTwice(TunOf(copied), patch[TUN].entries, LowerKeys(patch[TUN].entries));
        }
        assert WithTun(once, patch) == once;
      }
    }
  }

  /** Writing links never moves or renames a proxy, so every search by name ends where it would have. */
  lemma NamesAreKept(proxies: seq<Value>, chain: seq<Value>, n: nat, name: Value)
    requires n <= |chain|
    ensures forall p :: 0 <= p < |proxies| ==> Get(WithLinks(proxies, chain, n)[p], NAME) == Get(proxies[p], NAME)
    ensures FirstNamed(WithLinks(proxies, chain, n), name) == FirstNamed(proxies, name)
  {
  }

  // ----- The writer is canonical -----

  lemma {:induction false} LinksIgnoreOldLinks(
    proxies: seq<Value>, first: seq<Value>, chain: seq<Value>, n: nat, p: nat)
    requires n <= |chain|
    ensures LinkOf(WithLinks(proxies, first, |first|), chain, n, p) == LinkOf(proxies, chain, n, p)
  {
    if n > 1 {
      NamesAreKept(proxies, first, |first|, chain[n - 1]);
      LinksIgnoreOldLinks(proxies, first, chain, n - 1, p);
    }
  }

  lemma UnlinkedForgets(proxy: Value, link: Option<Value>)
    ensures Unlinked(Linked(Unlinked(proxy), link)) == Unlinked(proxy)
  {
    if proxy.Mapping? && link.Some? {
      assert (proxy.entries - {DIALER})[DIALER := link.value] - {DIALER} == proxy.entries - {DIALER};
    } else if proxy.Mapping? {
      assert proxy.entries - {DIALER} - {DIALER} == proxy.entries - {DIALER};
    }
  }

  lemma LastRewriteWins(proxies: seq<Value>, first: Option<Value>, second: Option<Value>)
    ensures Rewritten(Rewritten(proxies, first), second) == Rewritten(proxies, second)
  {
    var before, after := EntriesOf(first), EntriesOf(second);
    var mid := WithLinks(proxies, before, |before|);
    forall p | 0 <= p < |proxies|
      ensures WithLinks(mid, after, |after|)[p] == WithLinks(proxies, after, |after|)[p]
    {
      UnlinkedForgets(proxies[p], LinkOf(proxies, before, |before|, p));
      LinksIgnoreOldLinks(proxies, before, after, |after|, p);
    }
  }

  /** Whatever was linked before, the last update alone decides the configuration. */
  lemma LastUpdateWins(config: Option<map<string, Value>>, first: Option<Value>, second: Option<Value>)
    ensures Updated(Updated(config, first), second) == Updated(config, second)
  {
    if config.Some? && PROXIES in config.value && config.value[PROXIES].Sequence? {
      var proxies := config.value[PROXIES].items;
      LastRewriteWins(proxies, first, second);
      var before, after := Sequence(Rewritten(proxies, first)), Sequence(Rewritten(proxies, second));
      assert config.value[PROXIES := before][PROXIES := after] == config.value[PROXIES := after];
    }
  }

  /** An update without a chain leaves no link; no update touches another key, moves or drops a proxy. */
  lemma OnlyLinksChange(proxies: seq<Value>, chain: Option<Value>)
    ensures |Rewritten(proxies, chain)| == |proxies|
    ensures forall p, key :: 0 <= p < |proxies| && key != DIALER ==>
        Get(Rewritten(proxies, chain)[p], key) == Get(proxies[p], key)
    ensures forall p :: 0 <= p < |proxies| && !proxies[p].Mapping? ==> Rewritten(proxies, chain)[p] == proxies[p]
    ensures forall p :: 0 <= p < |proxies| && (chain.None? || !chain.value.Sequence?) ==>
        Get(Rewritten(proxies, chain)[p], DIALER) == None
  {
  }

  // ----- The reader -----

  /** Position of the first linked proxy with this name; the length when there is none. */
  function FindLinked(proxies: seq<Value>, name: Option<Option<string>>): (p: nat)
    ensures p <= |proxies|
    ensures p < |proxies| ==> NameOf(proxies[p]) == name && Get(proxies[p], DIALER).Some?
    ensures forall q :: 0 <= q < p ==>
        NameOf(proxies[q]) != name || !proxies[q].Mapping? || Get(proxies[q], DIALER).None?
  {
    if |proxies| == 0 || (proxies[0].Mapping? && NameOf(proxies[0]) == name && Get(proxies[0], DIALER).Some?) then 0
    else 1 + FindLinked(proxies[1..], name)
  }

  /** Position of the first proxy with this name, linked or not. */
  function FindNamed(proxies: seq<Value>, name: Option<Option<string>>): (p: nat)
    ensures p <= |proxies|
    ensures p < |proxies| ==> NameOf(proxies[p]) == name
    ensures forall q :: 0 <= q < p ==> NameOf(proxies[q]) != name
  {
    if |proxies| == 0 || NameOf(proxies[0]) == name then 0 else 1 + FindNamed(proxies[1..], name)
  }

  function NextName(proxies: seq<Value>, name: Option<Option<string>>): Option<Option<string>>
    requires FindLinked(proxies, name) < |proxies|
  {
    Text(Get(proxies[FindLinked(proxies, name)], DIALER))
  }

  /** The walk from `name` meets a name without a link after exactly `n` links. */
  predicate EndsIn(proxies: seq<Value>, name: Option<Option<string>>, n: nat)
    decreases n
  {
    if n == 0 then FindLinked(proxies, name) == |proxies|
    else FindLinked(proxies, name) < |proxies| && EndsIn(proxies, NextName(proxies, name), n - 1)
  }

  ghost predicate Halts(proxies: seq<Value>, name: Option<Option<string>>) {
    exists n: nat :: EndsIn(proxies, name, n)
  }

  /** The proxies a walk of `n` links passes, in walking order. */
  function Walk(proxies: seq<Value>, name: Option<Option<string>>, n: nat): (r: seq<Value>)
    requires EndsIn(proxies, name, n)
    ensures |r| == n
    decreases n
  {
    if n == 0 then []
    else [proxies[FindLinked(proxies, name)]] + Walk(proxies, NextName(proxies, name), n - 1)
  }

  function WalkEnd(proxies: seq<Value>, name: Option<Option<string>>, n: nat): Option<Option<string>>
    requires EndsIn(proxies, name, n)
    decreases n
  {
    if n == 0 then name else WalkEnd(proxies, NextName(proxies, name), n - 1)
  }

  function Reversed(s: seq<Value>): (r: seq<Value>)
    ensures |r| == |s|
    ensures forall i :: 0 <= i < |s| ==> r[i] == s[|s| - 1 - i]
  {
    if s == [] then [] else Reversed(s[1..]) + [s[0]]
  }

  /** What the reader reports for a walk of `n` links: the passed proxies and the entry proxy, entry first. */
  function ChainRead(proxies: seq<Value>, name: Option<Option<string>>, n: nat): seq<Value>
    requires EndsIn(proxies, name, n)
  {
    var entry := FindNamed(proxies, WalkEnd(proxies, name, n));
    var walk := Walk(proxies, name, n);
    Reversed(if entry < |proxies| && n > 0 then walk + [proxies[entry]] else walk)
  }

  const NO_CONFIG := "failed to parse config to yaml file"
  const NO_PROXIES := "failed to get proxies or proxy-groups"

  /** `get_runtime_proxy_chain_config` up to the YAML text. The source's loop runs for ever unless the walk halts. */
  method GetRuntimeProxyChainConfig(config: Option<map<string, Value>>, exitNode: string)
    returns (r: Result<seq<Value>, string>)
    requires config.Some? && PROXIES in config.value && config.value[PROXIES].Sequence? ==>
      Halts(config.value[PROXIES].items, Some(Some(exitNode)))
    ensures config.None? ==> r == Err(NO_CONFIG)
    ensures config.Some? && !(PROXIES in config.value && config.value[PROXIES].Sequence?) ==> r == Err(NO_PROXIES)
    ensures config.Some? && PROXIES in config.value && config.value[PROXIES].Sequence? ==>
      r.Ok? && forall n: nat :: EndsIn(config.value[PROXIES].items, Some(Some(exitNode)), n) ==>
        r.value == ChainRead(config.value[PROXIES].items, Some(Some(exitNode)), n)
  {
    if config.None? {
      return Err(NO_CONFIG);
    }
    if PROXIES !in config.value || !config.value[PROXIES].Sequence? {
      return Err(NO_PROXIES);
    }
    var proxies := config.value[PROXIES].items;
    var proxyName := Some(Some(exitNode));
    var proxiesChain := [];
    ghost var n: nat :| EndsIn(proxies, Some(Some(exitNode)), n);
    ghost var left: nat := n;
    while FindLinked(proxies, proxyName) < |proxies|
      invariant EndsIn(proxies, proxyName, left) && left + |proxiesChain| == n
      invariant Walk(proxies, Some(Some(exitNode)), n) == proxiesChain + Walk(proxies, proxyName, left)
      invariant WalkEnd(proxies, Some(Some(exitNode)), n) == WalkEnd(proxies, proxyName, left)
      decreases left
    {
      var proxy := proxies[FindLinked(proxies, proxyName)];
      proxiesChain := proxiesChain + [proxy];
      proxyName := Text(Get(proxy, DIALER));
      left := left - 1;
    }
    assert left == 0 && Walk(proxies, Some(Some(exitNode)), n) == proxiesChain;
    var entry := FindNamed(proxies, proxyName);
    if entry < |proxies| && |proxiesChain| > 0 {
      proxiesChain := proxiesChain + [proxies[entry]];
    }
    r := Ok(Reversed(proxiesChain));
    forall m: nat | EndsIn(proxies, Some(Some(exitNode)), m) ensures m == n {
      WalksHaveOneLength(proxies, Some(Some(exitNode)), n, m);
    }
  }

  lemma {:induction false} WalksHaveOneLength(proxies: seq<Value>, name: Option<Option<string>>, n: nat, m: nat)
    requires EndsIn(proxies, name, n) && EndsIn(proxies, name, m)
    ensures n == m
    decreases n
  {
    if n > 0 && m > 0 {
      WalksHaveOneLength(proxies, NextName(proxies, name), n - 1, m - 1);
    }
  }

  // ----- When the reader halts -----

  /** The positions a walk passes. */
  ghost function Visits(proxies: seq<Value>, name: Option<Option<string>>, n: nat): (r: seq<nat>)
    requires EndsIn(proxies, name, n)
    ensures |r| == n && forall i :: 0 <= i < n ==> r[i] < |proxies|
    decreases n
  {
    if n == 0 then [] else [FindLinked(proxies, name)] + Visits(proxies, NextName(proxies, name), n - 1)
  }

  lemma VisitsOneByOne(proxies: seq<Value>, name: Option<Option<string>>, n: nat, j: nat)
    requires EndsIn(proxies, name, n) && j < n
    ensures FindLinked(proxies, name) < |proxies| && EndsIn(proxies, NextName(proxies, name), n - 1)
    ensures Visits(proxies, name, n)[j] ==
        if j == 0 then FindLinked(proxies, name) else Visits(proxies, NextName(proxies, name), n - 1)[j - 1]
  {
  }

  /** After passing position `p` as the `j`-th proxy, the walk is the one that starts behind `p`. */
  lemma {:induction false} WalkFromVisit(proxies: seq<Value>, name: Option<Option<string>>, n: nat, j: nat)
    requires EndsIn(proxies, name, n) && j < n
    ensures EndsIn(proxies, Text(Get(proxies[Visits(proxies, name, n)[j]], DIALER)), n - 1 - j)
    decreases n
  {
    VisitsOneByOne(proxies, name, n, j);
    if j > 0 {
      WalkFromVisit(proxies, NextName(proxies, name), n - 1, j - 1);
    }
  }

  lemma {:induction false} VisitsAreDistinct(proxies: seq<Value>, name: Option<Option<string>>, n: nat)
    requires EndsIn(proxies, name, n)
    ensures forall i, j :: 0 <= i < j < n ==> Visits(proxies, name, n)[i] != Visits(proxies, name, n)[j]
    decreases n
  {
    if n > 0 {
      var rest := Visits(proxies, NextName(proxies, name), n - 1);
      VisitsAreDistinct(proxies, NextName(proxies, name), n - 1);
      forall j | 0 <= j < n - 1 ensures rest[j] != FindLinked(proxies, name) {
        WalkFromVisit(proxies, NextName(proxies, name), n - 1, j);
        if rest[j] == FindLinked(proxies, name) {
          WalksHaveOneLength(proxies, NextName(proxies, name), n - 1, n - 2 - j);
        }
      }
    }
  }

  /** The pigeonhole principle: distinct numbers below `bound` are at most `bound` many. */
  lemma {:induction false} DistinctBelow(s: seq<nat>, bound: nat)
    requires forall i :: 0 <= i < |s| ==> s[i] < bound
    requires forall i, j :: 0 <= i < j < |s| ==> s[i] != s[j]
    ensures |s| <= bound
  {
    assert s != [] ==> s[0] < bound;
    if k :| 0 <= k < |s| && s[k] == bound - 1 {
      DistinctBelow(s[..k] + s[k + 1..], bound - 1);
    } else if bound > 0 {
      DistinctBelow(s, bound - 1);
    }
  }

  /** The check a caller can make beforehand: follow at most as many links as there are proxies. */
  predicate LinksEnd(proxies: seq<Value>, name: Option<Option<string>>, fuel: nat)
    decreases fuel
  {
    FindLinked(proxies, name) == |proxies| || (fuel > 0 && LinksEnd(proxies, NextName(proxies, name), fuel - 1))
  }

  lemma {:induction false} LinksEndMeansHalts(proxies: seq<Value>, name: Option<Option<string>>, fuel: nat)
    returns (n: nat)
    requires LinksEnd(proxies, name, fuel)
    ensures EndsIn(proxies, name, n)
    decreases fuel
  {
    if FindLinked(proxies, name) == |proxies| {
      n := 0;
    } else {
      var m := LinksEndMeansHalts(proxies, NextName(proxies, name), fuel - 1);
      n := m + 1;
    }
  }

  lemma {:induction false} ShortWalksAreFound(proxies: seq<Value>, name: Option<Option<string>>, n: nat, fuel: nat)
    requires EndsIn(proxies, name, n) && n <= fuel
    ensures LinksEnd(proxies, name, fuel)
    decreases n
  {
    if n > 0 {
      ShortWalksAreFound(proxies, NextName(proxies, name), n - 1, fuel - 1);
    }
  }

  /** The reader halts exactly when the walk ends within as many links as there are proxies. */
  lemma HaltsIsCheckable(proxies: seq<Value>, name: Option<Option<string>>)
    ensures Halts(proxies, name) <==> LinksEnd(proxies, name, |proxies|)
  {
    if LinksEnd(proxies, name, |proxies|) {
      var n := LinksEndMeansHalts(proxies, name, |proxies|);
    }
    if Halts(proxies, name) {
      var n: nat :| EndsIn(proxies, name, n);
      VisitsAreDistinct(proxies, name, n);
      DistinctBelow(Visits(proxies, name, n), |proxies|);
      ShortWalksAreFound(proxies, name, n, |proxies|);
    }
  }

  // ----- Write, then read -----

  ghost predicate Distinct(chain: seq<string>) {
    forall i, j :: 0 <= i < j < |chain| ==> chain[i] != chain[j]
  }

  function Strs(chain: seq<string>): (r: seq<Value>)
    ensures |r| == |chain| && forall i :: 0 <= i < |chain| ==> r[i] == Str(chain[i])
  {
    seq(|chain|, i requires 0 <= i < |chain| => Str(chain[i]))
  }

  /** The proxy list after writing a chain of names. */
  function Written(proxies: seq<Value>, chain: seq<string>): seq<Value> {
    Rewritten(proxies, Some(Sequence(Strs(chain))))
  }

  function PositionOf(proxies: seq<Value>, name: string): nat { FirstNamed(proxies, Str(name)) }

  /** A link comes from some chain entry past the first. */
  lemma {:induction false} LinksComeFromChain(proxies: seq<Value>, chain: seq<Value>, n: nat, p: nat) returns (j: nat)
    requires n <= |chain| && LinkOf(proxies, chain, n, p).Some?
    ensures 1 <= j < n && FirstNamed(proxies, chain[j]) == p && LinkOf(proxies, chain, n, p) == Some(chain[j - 1])
  {
    if FirstNamed(proxies, chain[n - 1]) == p {
      j := n - 1;
    } else {
      j := LinksComeFromChain(proxies, chain, n - 1, p);
    }
  }

  /** The last entry for a name decides its link. */
  lemma {:induction false} LastEntryLinks(proxies: seq<Value>, chain: seq<string>, n: nat, k: nat)
    requires k < n <= |chain| && PositionOf(proxies, chain[k]) < |proxies|
    requires forall m :: k < m < n ==> chain[m] != chain[k]
    requires k > 0
    ensures LinkOf(proxies, Strs(chain), n, PositionOf(proxies, chain[k])) == Some(Str(chain[k - 1]))
  {
    if k < n - 1 {
      assert Strs(chain)[n - 1] != Str(chain[k]);
      LastEntryLinks(proxies, chain, n - 1, k);
    }
  }

  lemma FoundAt(out: seq<Value>, name: Option<Option<string>>, p: nat)
    requires p < |out| && NameOf(out[p]) == name && Get(out[p], DIALER).Some?
    requires forall q :: 0 <= q < p ==> NameOf(out[q]) != name
    ensures FindLinked(out, name) == p
  {
  }

  lemma WrittenNames(proxies: seq<Value>, chain: seq<string>)
    ensures |Written(proxies, chain)| == |proxies|
    ensures forall p :: 0 <= p < |proxies| ==> NameOf(Written(proxies, chain)[p]) == NameOf(proxies[p])
  {
    NamesAreKept(proxies, Strs(chain), |chain|, Null);
  }

  lemma WrittenLink(proxies: seq<Value>, chain: seq<string>, p: nat)
    requires p < |proxies| && proxies[p].Mapping?
    ensures Get(Written(proxies, chain)[p], DIALER) == LinkOf(proxies, Strs(chain), |chain|, p)
  {
  }

  lemma PositionIsFirst(proxies: seq<Value>, name: string)
    requires PositionOf(proxies, name) < |proxies|
    ensures NameOf(proxies[PositionOf(proxies, name)]) == Some(Some(name))
    ensures forall q :: 0 <= q < PositionOf(proxies, name) ==> NameOf(proxies[q]) != Some(Some(name))
  {
  }

  /** From a listed proxy the reader steps to the predecessor of its name's last entry. */
  lemma StepsToPredecessor(proxies: seq<Value>, chain: seq<string>, k: nat)
    requires 0 < k < |chain| && PositionOf(proxies, chain[k]) < |proxies|
    requires forall m :: k < m < |chain| ==> chain[m] != chain[k]
    ensures FindLinked(Written(proxies, chain), Some(Some(chain[k]))) == PositionOf(proxies, chain[k])
    ensures NextName(Written(proxies, chain), Some(Some(chain[k]))) == Some(Some(chain[k - 1]))
  {
    var p := PositionOf(proxies, chain[k]);
    PositionIsFirst(proxies, chain[k]);
    LastEntryLinks(proxies, chain, |chain|, k);
    WrittenNames(proxies, chain);
    WrittenLink(proxies, chain, p);
    FoundAt(Written(proxies, chain), Some(Some(chain[k])), p);
  }

  /** Any other name, and the first entry of a duplicate-free chain, has no link. */
  lemma StopsElsewhere(proxies: seq<Value>, chain: seq<string>, name: Option<Option<string>>)
    requires forall k :: 0 < k < |chain| && PositionOf(proxies, chain[k]) < |proxies| ==> name != Some(Some(chain[k]))
    ensures FindLinked(Written(proxies, chain), name) == |proxies|
  {
    var out := Written(proxies, chain);
    var p := FindLinked(out, name);
    if p < |out| {
      var j := LinksComeFromChain(proxies, Strs(chain), |chain|, p);
      NamesAreKept(proxies, Strs(chain), |chain|, Str(chain[j]));
      assert false;
    }
  }

  ghost predicate AllNamed(proxies: seq<Value>, chain: seq<string>) {
    forall k :: 0 <= k < |chain| ==> PositionOf(proxies, chain[k]) < |proxies|
  }

  /** In `out` the walk steps from each entry after `q` up to `k` to the entry before it. */
  ghost predicate StepsDown(out: seq<Value>, chain: seq<string>, q: nat, k: nat)
    requires k < |chain|
  {
    forall m :: q < m <= k ==>
      FindLinked(out, Some(Some(chain[m]))) < |out| && NextName(out, Some(Some(chain[m]))) == Some(Some(chain[m - 1]))
  }

  /** The walk back from the `k`-th entry of the chain. */
  lemma {:induction false} WalkBack(out: seq<Value>, chain: seq<string>, k: nat)
    requires k < |chain| && StepsDown(out, chain, 0, k) && EndsIn(out, Some(Some(chain[0])), 0)
    ensures EndsIn(out, Some(Some(chain[k])), k)
    ensures WalkEnd(out, Some(Some(chain[k])), k) == Some(Some(chain[0]))
    ensures forall i :: 0 <= i < k ==>
      Walk(out, Some(Some(chain[k])), k)[i] == out[FindLinked(out, Some(Some(chain[k - i])))]
  {
    if k > 0 {
      WalkBack(out, chain, k - 1);
      var rest := Walk(out, Some(Some(chain[k - 1])), k - 1);
      assert Walk(out, Some(Some(chain[k])), k) == [out[FindLinked(out, Some(Some(chain[k])))]] + rest;
    }
  }

  /** The proxies of the first `n` chain entries, in chain order. */
  function Listing(out: seq<Value>, proxies: seq<Value>, chain: seq<string>, n: nat): (r: seq<Value>)
    requires n <= |chain| && |out| == |proxies| && AllNamed(proxies, chain)
    ensures |r| == n && forall i :: 0 <= i < n ==> r[i] == out[PositionOf(proxies, chain[i])]
  {
    seq(n, i requires 0 <= i < n => out[PositionOf(proxies, chain[i])])
  }

  lemma WrittenStepsDown(proxies: seq<Value>, chain: seq<string>, k: nat)
    requires Distinct(chain) && AllNamed(proxies, chain) && k < |chain|
    ensures StepsDown(Written(proxies, chain), chain, 0, k)
    ensures forall m :: 0 < m <= k ==>
        FindLinked(Written(proxies, chain), Some(Some(chain[m]))) == PositionOf(proxies, chain[m])
  {
    var out := Written(proxies, chain);
    forall m | 0 < m <= k
      ensures FindLinked(out, Some(Some(chain[m]))) == PositionOf(proxies, chain[m])
      ensures NextName(out, Some(Some(chain[m]))) == Some(Some(chain[m - 1]))
    {
      StepsToPredecessor(proxies, chain, m);
    }
  }

  lemma ReversedMirrors(passed: seq<Value>, listed: seq<Value>)
    requires |passed| == |listed| && forall i :: 0 <= i < |passed| ==> passed[i] == listed[|listed| - 1 - i]
    ensures Reversed(passed) == listed
  {
    forall i | 0 <= i < |listed| ensures Reversed(passed)[i] == listed[i] {
      assert Reversed(passed)[i] == passed[|passed| - 1 - i];
    }
  }

  lemma MirrorOfListing(out: seq<Value>, proxies: seq<Value>, chain: seq<string>, k: nat, walk: seq<Value>)
    requires k < |chain| && |out| == |proxies| && AllNamed(proxies, chain) && |walk| == k
    requires forall i :: 0 <= i < k ==> walk[i] == out[PositionOf(proxies, chain[k - i])]
    ensures Reversed(walk + [out[PositionOf(proxies, chain[0])]]) == Listing(out, proxies, chain, k + 1)
  {
    var passed, listed := walk + [out[PositionOf(proxies, chain[0])]], Listing(out, proxies, chain, k + 1);
    forall i | 0 <= i <= k ensures passed[i] == listed[k - i] {
      assert listed[k - i] == out[PositionOf(proxies, chain[k - i])];
    }
    ReversedMirrors(passed, listed);
  }

  /** In any list that steps down from entry `k` to an unlinked first entry, the reader lists entries 0 to `k`. */
  lemma ReadSteps(out: seq<Value>, proxies: seq<Value>, chain: seq<string>, k: nat)
    requires 0 < k < |chain| && |out| == |proxies| && AllNamed(proxies, chain)
    requires StepsDown(out, chain, 0, k) && EndsIn(out, Some(Some(chain[0])), 0)
    requires forall m :: 0 < m <= k ==> FindLinked(out, Some(Some(chain[m]))) == PositionOf(proxies, chain[m])
    requires FindNamed(out, Some(Some(chain[0]))) == PositionOf(proxies, chain[0])
    ensures EndsIn(out, Some(Some(chain[k])), k)
    ensures ChainRead(out, Some(Some(chain[k])), k) == Listing(out, proxies, chain, k + 1)
  {
    WalkBack(out, chain, k);
    var walk := Walk(out, Some(Some(chain[k])), k);
    forall i | 0 <= i < k ensures walk[i] == out[PositionOf(proxies, chain[k - i])] {
      assert walk[i] == out[FindLinked(out, Some(Some(chain[k - i])))];
    }
    MirrorOfListing(out, proxies, chain, k, walk);
  }

  lemma ReadBack(proxies: seq<Value>, chain: seq<string>, k: nat)
    requires Distinct(chain) && AllNamed(proxies, chain) && 0 < k < |chain|
    ensures EndsIn(Written(proxies, chain), Some(Some(chain[k])), k)
    ensures ChainRead(Written(proxies, chain), Some(Some(chain[k])), k)
            == Listing(Written(proxies, chain), proxies, chain, k + 1)
  {
    WrittenStepsDown(proxies, chain, k);
    StopsElsewhere(proxies, chain, Some(Some(chain[0])));
    EntryIsFound(proxies, chain);
    ReadSteps(Written(proxies, chain), proxies, chain, k);
  }

  /**
   * Write, then read: from the `k`-th entry of a duplicate-free chain of existing proxies the reader
   * returns the proxies of entries 0 to `k` in chain order; from the first entry, or for any name outside
   * the chain, it returns nothing. With `k` the last position this is the whole chain.
   */
  lemma RoundTrip(proxies: seq<Value>, chain: seq<string>, exitNode: string)
    requires Distinct(chain) && AllNamed(proxies, chain)
    ensures var out := Written(proxies, chain);
            && (forall k :: 0 < k < |chain| && exitNode == chain[k] ==>
                  && EndsIn(out, Some(Some(exitNode)), k)
                  && ChainRead(out, Some(Some(exitNode)), k) == Listing(out, proxies, chain, k + 1))
            && ((forall k :: 0 < k < |chain| ==> exitNode != chain[k]) ==>
                  && EndsIn(out, Some(Some(exitNode)), 0)
                  && ChainRead(out, Some(Some(exitNode)), 0) == [])
  {
    if forall k :: 0 < k < |chain| ==> exitNode != chain[k] {
      StopsElsewhere(proxies, chain, Some(Some(exitNode)));
    }
    forall k | 0 < k < |chain| && exitNode == chain[k]
      ensures EndsIn(Written(proxies, chain), Some(Some(exitNode)), k)
      ensures ChainRead(Written(proxies, chain), Some(Some(exitNode)), k)
              == Listing(Written(proxies, chain), proxies, chain, k + 1)
    {
      ReadBack(proxies, chain, k);
    }
  }

  lemma NamedAt(out: seq<Value>, name: Option<Option<string>>, p: nat)
    requires p < |out| && NameOf(out[p]) == name
    requires forall q :: 0 <= q < p ==> NameOf(out[q]) != name
    ensures FindNamed(out, name) == p
  {
  }

  lemma EntryIsFound(proxies: seq<Value>, chain: seq<string>)
    requires chain != [] && AllNamed(proxies, chain)
    ensures FindNamed(Written(proxies, chain), Some(Some(chain[0]))) == PositionOf(proxies, chain[0])
  {
    PositionIsFirst(proxies, chain[0]);
    WrittenNames(proxies, chain);
    NamedAt(Written(proxies, chain), Some(Some(chain[0])), PositionOf(proxies, chain[0]));
  }

  lemma FirstHasNoLink(proxies: seq<Value>, chain: seq<string>)
    requires Distinct(chain) && chain != [] && PositionOf(proxies, chain[0]) < |proxies|
    ensures LinkOf(proxies, Strs(chain), |chain|, PositionOf(proxies, chain[0])) == None
  {
    forall j | 1 <= j < |chain| ensures FirstNamed(proxies, Strs(chain)[j]) != PositionOf(proxies, chain[0]) {
      OnePositionOneName(proxies, chain[0], chain[j]);
    }
    NoLinkWithoutEntry(proxies, Strs(chain), |chain|, PositionOf(proxies, chain[0]));
  }

  lemma OnePositionOneName(proxies: seq<Value>, a: string, b: string)
    requires PositionOf(proxies, a) < |proxies| && a != b
    ensures PositionOf(proxies, b) != PositionOf(proxies, a)
  {
    PositionIsFirst(proxies, a);
  }

  lemma {:induction false} NoLinkWithoutEntry(proxies: seq<Value>, chain: seq<Value>, n: nat, p: nat)
    requires n <= |chain| && forall j :: 1 <= j < n ==> FirstNamed(proxies, chain[j]) != p
    ensures LinkOf(proxies, chain, n, p) == None
  {
    if n > 1 {
      NoLinkWithoutEntry(proxies, chain, n - 1, p);
    }
  }

  /** Entry `i` of a chain that was read: the listed proxy of that name, linked to the entry before it. */
  ghost predicate IsEntry(read: Value, proxy: Value, chain: seq<string>, i: nat)
    requires i < |chain|
  {
    && NameOf(read) == Some(Some(chain[i]))
    && (forall key :: key != "dialer-proxy" ==> Get(read, key) == Get(proxy, key))
    && Get(read, "dialer-proxy") == if i == 0 then None else Some(Str(chain[i - 1]))
  }

  lemma RelinkedEntry(proxy: Value, link: Option<Value>)
    requires proxy.Mapping?
    ensures forall key :: key != DIALER ==> Get(Linked(Unlinked(proxy), link), key) == Get(proxy, key)
    ensures Get(Linked(Unlinked(proxy), link), DIALER) == link
  {
  }

  lemma LinkOfEntry(proxies: seq<Value>, chain: seq<string>, i: nat)
    requires Distinct(chain) && i < |chain| && PositionOf(proxies, chain[i]) < |proxies|
    ensures LinkOf(proxies, Strs(chain), |chain|, PositionOf(proxies, chain[i])) ==
        if i == 0 then None else Some(Str(chain[i - 1]))
  {
    if i == 0 { FirstHasNoLink(proxies, chain); } else { LastEntryLinks(proxies, chain, |chain|, i); }
  }

  lemma WrittenEntry(proxies: seq<Value>, chain: seq<string>, i: nat)
    requires Distinct(chain) && i < |chain| && PositionOf(proxies, chain[i]) < |proxies|
    ensures var p := PositionOf(proxies, chain[i]);
            IsEntry(Written(proxies, chain)[p], proxies[p], chain, i)
  {
    var p := PositionOf(proxies, chain[i]);
    PositionIsFirst(proxies, chain[i]);
    LinkOfEntry(proxies, chain, i);
    RelinkedEntry(proxies[p], LinkOf(proxies, Strs(chain), |chain|, p));
  }

  /**
   * Of the whole configuration: after a duplicate-free chain of listed proxies was written, reading from its
   * `k`-th entry gives entries 0 to `k` in chain order, each as it was listed and linked to the one before it,
   * and no other key of the configuration has changed.
   */
  lemma WrittenChainIsRead(config: map<string, Value>, chain: seq<string>, k: nat)
    requires "proxies" in config && config["proxies"].Sequence? && 0 < k < |chain|
    requires Distinct(chain) && AllNamed(config["proxies"].items, chain)
    ensures var after := Updated(Some(config), Some(Sequence(Strs(chain))));
            && after.Some? && "proxies" in after.value && after.value["proxies"].Sequence?
            && (forall key :: key != "proxies" ==> Get(Mapping(after.value), key) == Get(Mapping(config), key))
            && EndsIn(after.value["proxies"].items, Some(Some(chain[k])), k)
            && var read := ChainRead(after.value["proxies"].items, Some(Some(chain[k])), k);
               && |read| == k + 1
               && forall i :: 0 <= i <= k ==>
                    IsEntry(read[i], config["proxies"].items[PositionOf(config["proxies"].items, chain[i])], chain, i)
  {
    var proxies := config["proxies"].items;
    ReadBack(proxies, chain, k);
    forall i | 0 <= i <= k
      ensures IsEntry(Listing(Written(proxies, chain), proxies, chain, k + 1)[i],
                      proxies[PositionOf(proxies, chain[i])], chain, i)
    {
      WrittenEntry(proxies, chain, i);
    }
  }

  // ----- Which chains can be read -----

  /** Entry `m` names a listed proxy and is the last to name it, so the reader steps from it to the entry before. */
  ghost predicate Links(proxies: seq<Value>, chain: seq<string>, m: nat) {
    m < |chain| && PositionOf(proxies, chain[m]) < |proxies| && forall k :: m < k < |chain| ==> chain[k] != chain[m]
  }

  /** From entry `p` the reader steps down to an entry `q` with the same name. */
  ghost predicate Loop(proxies: seq<Value>, chain: seq<string>, q: nat, p: nat) {
    q < p < |chain| && chain[q] == chain[p] && forall m: nat :: q < m <= p ==> Links(proxies, chain, m)
  }

  ghost predicate LoopFree(proxies: seq<Value>, chain: seq<string>) {
    forall q: nat, p: nat :: !Loop(proxies, chain, q, p)
  }

  /** A walk that comes back to the name it started from never ends. */
  lemma RepetitionNeverHalts(out: seq<Value>, chain: seq<string>, q: nat, p: nat)
    requires q < p < |chain| && chain[q] == chain[p] && StepsDown(out, chain, q, p)
    ensures !Halts(out, Some(Some(chain[p])))
  {
    if n: nat :| EndsIn(out, Some(Some(chain[p])), n) {
      RunsDown(out, chain, q, p, n);
      WalksHaveOneLength(out, Some(Some(chain[p])), n, n - (p - q));
    }
  }

  lemma LoopNeverHalts(proxies: seq<Value>, chain: seq<string>, q: nat, p: nat)
    requires Loop(proxies, chain, q, p)
    ensures !Halts(Written(proxies, chain), Some(Some(chain[p])))
  {
    var out := Written(proxies, chain);
    forall m | q < m <= p
      ensures FindLinked(out, Some(Some(chain[m]))) < |out|
      ensures NextName(out, Some(Some(chain[m]))) == Some(Some(chain[m - 1]))
    {
      assert Links(proxies, chain, m);
      StepsToPredecessor(proxies, chain, m);
    }
    RepetitionNeverHalts(out, chain, q, p);
  }

  lemma {:induction false} RunsDown(out: seq<Value>, chain: seq<string>, q: nat, j: nat, n: nat)
    requires q <= j < |chain| && StepsDown(out, chain, q, j) && EndsIn(out, Some(Some(chain[j])), n)
    ensures j - q <= n && EndsIn(out, Some(Some(chain[q])), n - (j - q))
    decreases j
  {
    if j > q {
      RunsDown(out, chain, q, j - 1, n - 1);
    }
  }

  /** The last entry with the name of entry `j`. */
  lemma {:induction false} LastOfName(chain: seq<string>, j: nat, n: nat) returns (p: nat)
    requires j < n <= |chain|
    ensures j <= p < n && chain[p] == chain[j] && forall k :: p < k < n ==> chain[k] != chain[j]
  {
    if chain[n - 1] == chain[j] { p := n - 1; } else { p := LastOfName(chain, j, n - 1); }
  }

  lemma HaltsAtOnce(out: seq<Value>, name: Option<Option<string>>)
    requires FindLinked(out, name) == |out|
    ensures Halts(out, name)
  {
    assert EndsIn(out, name, 0);
  }

  lemma HaltsOneLater(out: seq<Value>, name: Option<Option<string>>)
    requires FindLinked(out, name) < |out| && Halts(out, NextName(out, name))
    ensures Halts(out, name)
  {
    var n: nat :| EndsIn(out, NextName(out, name), n);
    assert EndsIn(out, name, n + 1);
  }

  lemma StopsAt(proxies: seq<Value>, chain: seq<string>, j: nat)
    requires j < |chain|
    requires PositionOf(proxies, chain[j]) == |proxies| || forall k :: 0 < k < |chain| ==> chain[k] != chain[j]
    ensures Halts(Written(proxies, chain), Some(Some(chain[j])))
  {
    StopsElsewhere(proxies, chain, Some(Some(chain[j])));
    HaltsAtOnce(Written(proxies, chain), Some(Some(chain[j])));
  }

  lemma StepsFrom(proxies: seq<Value>, chain: seq<string>, j: nat)
    requires j > 0 && Links(proxies, chain, j) && Halts(Written(proxies, chain), Some(Some(chain[j - 1])))
    ensures Halts(Written(proxies, chain), Some(Some(chain[j])))
  {
    StepsToPredecessor(proxies, chain, j);
    HaltsOneLater(Written(proxies, chain), Some(Some(chain[j])));
  }

  /** A jump back to an entry passed on the way down from `k` would close a loop. */
  lemma JumpsUp(proxies: seq<Value>, chain: seq<string>, k: nat, j: nat, p: nat)
    requires LoopFree(proxies, chain) && j < p < |chain| && chain[p] == chain[j] && k < |chain|
    requires forall m: nat :: j < m <= k ==> Links(proxies, chain, m)
    ensures p > k
  {
    assert !Loop(proxies, chain, j, p);
  }

  /**
   * Without a loop the walk ends: it steps down from entry `k` until it stops or jumps to a later entry with
   * the same name, and jumps only lead up.
   */
  lemma {:induction false} WalkHalts(proxies: seq<Value>, chain: seq<string>, k: nat, j: nat)
    requires LoopFree(proxies, chain)
    requires j <= k < |chain| && forall m: nat :: j < m <= k ==> Links(proxies, chain, m)
    ensures Halts(Written(proxies, chain), Some(Some(chain[j])))
    decreases |chain| - k, j
  {
    var p := LastOfName(chain, j, |chain|);
    if PositionOf(proxies, chain[j]) == |proxies| || p == 0 {
      StopsAt(proxies, chain, j);
    } else if p == j {
      assert Links(proxies, chain, j);
      WalkHalts(proxies, chain, k, j - 1);
      StepsFrom(proxies, chain, j);
    } else {
      JumpsUp(proxies, chain, k, j, p);
      WalkHalts(proxies, chain, p, p);
    }
  }

  lemma LoopFreeHalts(proxies: seq<Value>, chain: seq<string>, name: Option<Option<string>>)
    requires LoopFree(proxies, chain)
    ensures Halts(Written(proxies, chain), name)
  {
    if k :| 0 <= k < |chain| && name == Some(Some(chain[k])) {
      WalkHalts(proxies, chain, k, k);
    } else {
      StopsElsewhere(proxies, chain, name);
      HaltsAtOnce(Written(proxies, chain), name);
    }
  }

  /**
   * For every chain of strings and all proxies: the reader halts from every exit node if and only if the chain
   * has no loop.
   */
  lemma HaltsIffLoopFree(proxies: seq<Value>, chain: seq<string>)
    ensures (forall exitNode: string :: Halts(Written(proxies, chain), Some(Some(exitNode)))) <==>
        LoopFree(proxies, chain)
  {
    forall q: nat, p: nat | Loop(proxies, chain, q, p) ensures !Halts(Written(proxies, chain), Some(Some(chain[p]))) {
      LoopNeverHalts(proxies, chain, q, p);
    }
    if LoopFree(proxies, chain) {
      forall exitNode: string ensures Halts(Written(proxies, chain), Some(Some(exitNode))) {
        LoopFreeHalts(proxies, chain, Some(Some(exitNode)));
      }
    }
  }

  /** For example: over listed proxies the chain a, b, a is a loop, and the reader runs for ever from either. */
  lemma RepeatedChainNeverHalts(proxies: seq<Value>)
    requires AllNamed(proxies, ["a", "b", "a"])
    ensures !LoopFree(proxies, ["a", "b", "a"])
    ensures !Halts(Written(proxies, ["a", "b", "a"]), Some(Some("a")))
    ensures !Halts(Written(proxies, ["a", "b", "a"]), Some(Some("b")))
  {
    var chain := ["a", "b", "a"];
    assert chain[0] == chain[2] && chain[1] != chain[2];
    assert Links(proxies, chain, 1) && Links(proxies, chain, 2);
    assert Loop(proxies, chain, 0, 2);
    LoopNeverHalts(proxies, chain, 0, 2);
    StepsToPredecessor(proxies, chain, 1);
    if Halts(Written(proxies, chain), Some(Some("b"))) {
      NextHalts(Written(proxies, chain), Some(Some("b")));
    }
  }

  lemma NextHalts(out: seq<Value>, name: Option<Option<string>>)
    requires FindLinked(out, name) < |out| && Halts(out, name)
    ensures Halts(out, NextName(out, name))
  {
    var n: nat :| EndsIn(out, name, n);
    assert EndsIn(out, NextName(out, name), n - 1);
  }

  /** Such proxies exist. */
  lemma TwoProxiesAreListed()
    ensures AllNamed([Mapping(map[NAME := Str("a")]), Mapping(map[NAME := Str("b")])], ["a", "b", "a"])
  {
    var proxies := [Mapping(map[NAME := Str("a")]), Mapping(map[NAME := Str("b")])];
    assert Get(proxies[0], NAME) == Some(Str("a")) && Get(proxies[1], NAME) == Some(Str("b"));
  }

  /**
   * The reader halts from every exit node after a duplicate-free chain of strings was written, whatever was
   * linked before.
   */
  lemma DistinctChainHaltsEverywhere(proxies: seq<Value>, chain: seq<string>)
    requires Distinct(chain)
    ensures forall name :: Halts(Written(proxies, chain), name)
  {
    forall name ensures Halts(Written(proxies, chain), name) {
      LoopFreeHalts(proxies, chain, name);
    }
  }

  /** The last position that is repeated later, and the last position of that name. */
  lemma {:induction false} LastRepetition(chain: seq<string>, from: nat) returns (q: nat, p: nat)
    requires from <= |chain| && Distinct(chain[from..]) && !Distinct(chain)
    ensures q < p < |chain| && chain[q] == chain[p] && Distinct(chain[q + 1..])
    decreases from
  {
    assert chain[0..] == chain;
    if r :| from <= r < |chain| && chain[r] == chain[from - 1] {
      q, p := from - 1, r;
      assert chain[q + 1..] == chain[from..];
    } else {
      assert chain[from - 1..] == [chain[from - 1]] + chain[from..];
      q, p := LastRepetition(chain, from - 1);
    }
  }

  /** For chains of names of listed proxies that is if and only if the chain repeats no name. */
  lemma HaltsIffDistinct(proxies: seq<Value>, chain: seq<string>)
    requires AllNamed(proxies, chain)
    ensures (forall exitNode: string :: Halts(Written(proxies, chain), Some(Some(exitNode)))) <==> Distinct(chain)
  {
    HaltsIffLoopFree(proxies, chain);
    if !Distinct(chain) {
      var q, p := LastRepetition(chain, |chain|);
      forall m: nat | q < m <= p ensures Links(proxies, chain, m) {
        forall k | m < k < |chain| ensures chain[k] != chain[m] {
          assert chain[q + 1..][k - q - 1] != chain[q + 1..][m - q - 1];
        }
      }
      assert Loop(proxies, chain, q, p);
    }
  }

  function Named(name: Value): Value { Mapping(map[NAME := name]) }

  lemma FoundOnly(proxies: seq<Value>, name: Value, p: nat)
    requires p < |proxies| && Get(proxies[p], NAME) == Some(name)
    requires forall q :: 0 <= q < |proxies| && q != p ==> Get(proxies[q], NAME) != Some(name)
    ensures FirstNamed(proxies, name) == p
  {
    var q := FirstNamed(proxies, name);
    assert q < |proxies| ==> Get(proxies[q], NAME) == Some(name);
  }

  /**
   * Not so for other YAML values, because the reader takes all names that are not strings for one: with the
   * duplicate-free chain 1, a, 2 over proxies with exactly these names it runs for ever from a.
   */
  lemma NonStringChainNeverHalts()
    ensures var chain := [Number(1), Str("a"), Number(2)];
            var proxies := [Named(Number(1)), Named(Str("a")), Named(Number(2))];
            !Halts(Rewritten(proxies, Some(Sequence(chain))), Some(Some("a")))
  {
    var chain := [Number(1), Str("a"), Number(2)];
    var proxies := [Named(Number(1)), Named(Str("a")), Named(Number(2))];
    var out := Rewritten(proxies, Some(Sequence(chain)));
    FoundOnly(proxies, Str("a"), 1);
    FoundOnly(proxies, Number(2), 2);
    assert LinkOf(proxies, chain, 1, 0) == None && LinkOf(proxies, chain, 1, 1) == None;
    assert LinkOf(proxies, chain, 2, 0) == None && LinkOf(proxies, chain, 2, 1) == Some(Number(1));
    assert LinkOf(proxies, chain, 3, 0) == None && LinkOf(proxies, chain, 3, 1) == Some(Number(1));
    assert LinkOf(proxies, chain, 3, 2) == Some(Str("a"));
    assert Get(out[0], DIALER) == None;
    assert Get(out[1], DIALER) == Some(Number(1)) && Get(out[2], DIALER) == Some(Str("a"));
    assert NameOf(out[0]) == Some(None) && NameOf(out[1]) == Some(Some("a")) && NameOf(out[2]) == Some(None);
    assert FindLinked(out, Some(Some("a"))) == 1 && NextName(out, Some(Some("a"))) == Some(None);
    assert FindLinked(out, Some(None)) == 2 && NextName(out, Some(None)) == Some(Some("a"));
    TwoNamesNeverHalt(out, Some(Some("a")), Some(None));
  }

  lemma TwoNamesNeverHalt(out: seq<Value>, first: Option<Option<string>>, second: Option<Option<string>>)
    requires FindLinked(out, first) < |out| && NextName(out, first) == second
    requires FindLinked(out, second) < |out| && NextName(out, second) == first
    ensures !Halts(out, first)
  {
    if n: nat :| EndsIn(out, first, n) {
      assert EndsIn(out, second, n - 1) && EndsIn(out, first, n - 2);
      WalksHaveOneLength(out, first, n, n - 2);
    }
  }
}
