/**
 Enriching a parsed cloud-config: SSH keys (internal/bootstrap/cloudinit.go:60-106)
 and kube-vip (internal/kubevip/inject.go:54-121).
 */
module CloudConfig {
  import opened Options
  import opened Strings

  /** A parsed YAML value; anything else (numbers, booleans, null) is Scalar. */
  datatype Value = Text(text: string) | List(items: seq<Value>) | Dict(entries: map<string, Value>) | Scalar

  /** A cloud-config: no text at all, a text with an empty document (a nil map once parsed), or a map. */
  datatype Config = NoText | NoDocument | Parsed(entries: map<string, Value>)

  const SSH_KEYS := "ssh_authorized_keys"
  const WRITE_FILES := "write_files"
  const RUNCMD := "runcmd"

  /** The list under a key, or nothing when the key is absent or holds no list. */
  function ListAt(config: Config, key: string): Option<seq<Value>> {
    if config.Parsed? && key in config.entries && config.entries[key].List? then Some(config.entries[key].items)
    else None
  }

  function OrEmpty(list: Option<seq<Value>>): seq<Value> {
    if list.Some? then list.value else []
  }

  lemma ListExactly(config: Config, key: string, items: seq<Value>)
    ensures ListAt(config, key) == Some(items)
        <==> config.Parsed? && key in config.entries && config.entries[key] == List(items)
  {
  }

  // ---------------------------------------------------------------------------
  // SSH keys
  // ---------------------------------------------------------------------------

  /** The keys that are not among the items yet, each once, in order. */
  function Missing(items: seq<Value>, keys: seq<string>): seq<Value>
    decreases |keys|
  {
    if keys == [] then []
    else if Text(keys[0]) in items then Missing(items, keys[1..])
    else [Text(keys[0])] + Missing(items + [Text(keys[0])], keys[1..])
  }

  function WithKeys(items: seq<Value>, keys: seq<string>): seq<Value> {
    items + Missing(items, keys)
  }

  function Merged(config: Config, keys: seq<string>): Config {
    if keys == [] then config
    else
      var list := List(WithKeys(OrEmpty(ListAt(config, SSH_KEYS)), keys));
      Parsed((if config.Parsed? then config.entries else map[])[SSH_KEYS := list])
  }

  /** MergeSSHKeysIntoCloudConfig, from the parsed document on. */
  method MergeSSHKeys(config: Config, keys: seq<string>) returns (r: Config)
    ensures r == Merged(config, keys)
  {
    if |keys| == 0 {
      return config;
    }
    var merged: seq<Value> := [];
    if config.Parsed? && SSH_KEYS in config.entries {
      match config.entries[SSH_KEYS]
      case List(items) => merged := items;
      case _ =>
    }
    var existing: set<string> := {};
    for i := 0 to |merged|
      invariant forall k :: k in existing <==> Text(k) in merged[..i]
    {
      if merged[i].Text? {
        existing := existing + {merged[i].text};
      }
    }
    ghost var list := merged;
    assert merged[..|merged|] == merged;
    for i := 0 to |keys|
      invariant forall k :: k in existing <==> Text(k) in merged
      invariant merged + Missing(merged, keys[i..]) == WithKeys(list, keys)
    {
      assert keys[i..][1..] == keys[i + 1..];
      if keys[i] !in existing {
        ghost var rest := Missing(merged + [Text(keys[i])], keys[i + 1..]);
        assert merged + ([Text(keys[i])] + rest) == (merged + [Text(keys[i])]) + rest;
        merged := merged + [Text(keys[i])];
        existing := existing + {keys[i]};
      }
    }
    assert merged + Missing(merged, []) == merged;
    var entries := map[];
    if config.Parsed? {
      entries := config.entries;
    }
    return Parsed(entries[SSH_KEYS := List(merged)]);
  }

  /** How often a value occurs. */
  function Count(items: seq<Value>, v: Value): nat {
    multiset(items)[v]
  }

  lemma CountAppend(items: seq<Value>, w: Value, v: Value)
    ensures Count(items + [w], v) == Count(items, v) + if v == w then 1 else 0
  {
  }

  /** After the merge every key is there; a key that was missing is there once, everything else as often as before. */
  lemma {:induction false} MissingAddsOnce(items: seq<Value>, keys: seq<string>, v: Value)
    ensures var added := v !in items && v.Text? && v.text in keys;
            Count(WithKeys(items, keys), v) == Count(items, v) + if added then 1 else 0
    decreases |keys|
  {
    if keys == [] {
      assert WithKeys(items, keys) == items;
    } else {
      var w := Text(keys[0]);
      FirstKey(items, keys);
      assert keys == [keys[0]] + keys[1..];
      if w in items {
        MissingAddsOnce(items, keys[1..], v);
      } else {
        MissingAddsOnce(items + [w], keys[1..], v);
        CountAppend(items, w, v);
      }
    }
  }

  /** One key goes to the end of the list, unless it is there. */
  lemma OneKey(items: seq<Value>, key: string)
    ensures WithKeys(items, [key]) == if Text(key) in items then items else items + [Text(key)]
  {
    FirstKey(items, [key]);
    assert [key][1..] == [] && forall list :: WithKeys(list, []) == list + [];
    assert items + [] == items;
  }

  /** Keys are added in their order, one after the other. */
  lemma {:induction false} KeysInOrder(items: seq<Value>, first: seq<string>, rest: seq<string>)
    ensures WithKeys(items, first + rest) == WithKeys(WithKeys(items, first), rest)
    decreases |first|
  {
    if first == [] {
      assert first + rest == rest && WithKeys(items, first) == items;
    } else {
      var more := if Text(first[0]) in items then items else items + [Text(first[0])];
      assert (first + rest)[1..] == first[1..] + rest;
      KeysInOrder(more, first[1..], rest);
      FirstKey(items, first);
      FirstKey(items, first + rest);
    }
  }

  lemma FirstKey(items: seq<Value>, keys: seq<string>)
    requires keys != []
    ensures var more := if Text(keys[0]) in items then items else items + [Text(keys[0])];
            WithKeys(items, keys) == WithKeys(more, keys[1..])
  {
    if Text(keys[0]) !in items {
      var more := items + [Text(keys[0])];
      assert items + ([Text(keys[0])] + Missing(more, keys[1..])) == more + Missing(more, keys[1..]);
    }
  }

  lemma {:induction false} NothingMissing(items: seq<Value>, keys: seq<string>)
    requires forall k <- keys :: Text(k) in items
    ensures Missing(items, keys) == []
  {
    if keys != [] {
      NothingMissing(items, keys[1..]);
    }
  }

  lemma {:induction false} AllPresent(items: seq<Value>, keys: seq<string>)
    ensures forall k <- keys :: Text(k) in WithKeys(items, keys)
  {
    forall k <- keys ensures Text(k) in WithKeys(items, keys) {
      MissingAddsOnce(items, keys, Text(k));
      assert Text(k) in multiset(WithKeys(items, keys)) || Text(k) in multiset(items);
    }
  }

  /**
   The keys go to the end of the existing list, every key ends up in it, and
   nothing else in the document changes.
   */
  lemma MergeKeepsPrefix(config: Config, keys: seq<string>)
    requires keys != []
    ensures var before := ListAt(config, "ssh_authorized_keys");
            var after := ListAt(Merged(config, keys), "ssh_authorized_keys");
            && after == Some(WithKeys(OrEmpty(before), keys))
            && OrEmpty(before) <= after.value
            && (forall k <- keys :: Text(k) in after.value)
    ensures Merged(config, keys).Parsed?
    ensures Merged(config, keys).entries - {"ssh_authorized_keys"}
         == (if config.Parsed? then config.entries else map[]) - {"ssh_authorized_keys"}
  {
    AllPresent(OrEmpty(ListAt(config, SSH_KEYS)), keys);
  }

  /** Without keys nothing changes, not even a document that is no map. */
  lemma MergeNothing(config: Config)
    ensures Merged(config, []) == config
  {
  }

  /** Merging the same keys again changes nothing. */
  lemma MergeIdempotent(config: Config, keys: seq<string>)
    ensures Merged(Merged(config, keys), keys) == Merged(config, keys)
  {
    if keys != [] {
      var merged := Merged(config, keys);
      var list := WithKeys(OrEmpty(ListAt(config, SSH_KEYS)), keys);
      assert ListAt(merged, SSH_KEYS) == Some(list);
      AllPresent(OrEmpty(ListAt(config, SSH_KEYS)), keys);
      NothingMissing(list, keys);
      assert WithKeys(list, keys) == list;
      assert merged.entries[SSH_KEYS := List(list)] == merged.entries;
    }
  }

  // ---------------------------------------------------------------------------
  // kube-vip
  // ---------------------------------------------------------------------------

  const PRE_COMMAND := Text("bash /etc/kubernetes/kube-vip-pre.sh")
  const POST_COMMAND := Text("bash /etc/kubernetes/kube-vip-post.sh")

  /** Injecting fails without a runcmd list or a kubeadm command in it, and panics on a nil map. */
  datatype Injected = Injected(config: Config) | NoRuncmd | NoKubeadm | Panics

  predicate IsKubeadm(v: Value) {
    v.Text? && (Contains(v.text, "kubeadm init") || Contains(v.text, "kubeadm join"))
  }

  /** A text with one of the two commands in it; nothing that is no text. */
  lemma KubeadmExactly(v: Value)
    ensures IsKubeadm(v) <==>
              v.Text? && exists a, b :: v.text == a + "kubeadm init" + b || v.text == a + "kubeadm join" + b
  {
    if v.Text? {
      ContainsExactly(v.text, "kubeadm init");
      ContainsExactly(v.text, "kubeadm join");
      if IsKubeadm(v) {
        if Contains(v.text, "kubeadm init") {
          var a, b :| v.text == a + "kubeadm init" + b;
        } else {
          var a, b :| v.text == a + "kubeadm join" + b;
        }
      }
    }
  }

  /** The position of the first kubeadm command, or the end of the list. */
  function KubeadmIndex(cmds: seq<Value>): (n: nat)
    ensures n <= |cmds|
    ensures n < |cmds| ==> IsKubeadm(cmds[n])
    ensures forall k :: 0 <= k < n ==> !IsKubeadm(cmds[k])
  {
    if cmds == [] || IsKubeadm(cmds[0]) then 0 else KubeadmIndex(cmds[1..]) + 1
  }

  function Surrounded<T>(s: seq<T>, n: nat, before: T, after: T): seq<T>
    requires n < |s|
  {
    s[..n] + [before, s[n], after] + s[n + 1..]
  }

  function AroundKubeadm(cmds: seq<Value>): Option<seq<Value>> {
    var n := KubeadmIndex(cmds);
    if n == |cmds| then None
    else Some(Surrounded(cmds, n, PRE_COMMAND, POST_COMMAND))
  }

  /** injectAroundKubeadm: inject.go:100-121. */
  method InjectAroundKubeadm(cmds: seq<Value>) returns (r: Option<seq<Value>>)
    ensures r == AroundKubeadm(cmds)
  {
    var index := -1;
    var i := 0;
    while i < |cmds|
      invariant 0 <= i <= |cmds|
      invariant index == -1 && forall k :: 0 <= k < i ==> !IsKubeadm(cmds[k])
    {
      if IsKubeadm(cmds[i]) {
        index := i;
        break;
      }
      i := i + 1;
    }
    assert KubeadmIndex(cmds) == i;
    if index == -1 {
      return None;
    }
    var result := cmds[..index];
    result := result + [PRE_COMMAND];
    result := result + [cmds[index]];
    result := result + [POST_COMMAND];
    assert result == cmds[..index] + [PRE_COMMAND, cmds[index], POST_COMMAND];
    result := result + cmds[index + 1..];
    return Some(result);
  }

  function WithKubeVip(config: Config, pre: Value, post: Value): Injected {
    if config.NoText? then Injected(NoText)
    else if config.NoDocument? then Panics
    else if ListAt(config, RUNCMD).None? then NoRuncmd
    else
      var cmds := AroundKubeadm(ListAt(config, RUNCMD).value);
      if cmds.None? then NoKubeadm
      else
        var files := List(OrEmpty(ListAt(config, WRITE_FILES)) + [pre, post]);
        Injected(Parsed(config.entries[WRITE_FILES := files][RUNCMD := List(cmds.value)]))
  }

  /** Inject: inject.go:54-98; `pre` and `post` are the two script entries. */
  method Inject(config: Config, pre: Value, post: Value) returns (r: Injected)
    ensures r == WithKubeVip(config, pre, post)
    ensures r.Injected? <==> config.NoText? || RunsKubeadm(config)
  {
    InjectionSucceeds(config, pre, post);
    if config.NoText? {
      return Injected(NoText);
    }
    if config.NoDocument? {
      return Panics;
    }
    var entries := config.entries;
    var files := OrEmpty(ListAt(config, WRITE_FILES));
    files := files + [pre];
    files := files + [post];
    assert files == OrEmpty(ListAt(config, WRITE_FILES)) + [pre, post];
    entries := entries[WRITE_FILES := List(files)];
    if RUNCMD !in entries || !entries[RUNCMD].List? {
      return NoRuncmd;
    }
    var cmds := InjectAroundKubeadm(entries[RUNCMD].items);
    if cmds.None? {
      return NoKubeadm;
    }
    entries := entries[RUNCMD := List(cmds.value)];
    return Injected(Parsed(entries));
  }

  /** Injection fails exactly when no command runs kubeadm. */
  lemma InjectionFails(cmds: seq<Value>)
    ensures AroundKubeadm(cmds).None? <==> forall c <- cmds :: !IsKubeadm(c)
  {
  }

  lemma SurroundedParts<T>(s: seq<T>, n: nat, before: T, after: T)
    requires n < |s|
    ensures var r := Surrounded(s, n, before, after);
            && |r| == |s| + 2 && r[n] == before && r[n + 1] == s[n] && r[n + 2] == after
            && r[..n] == s[..n] && r[..n] + [r[n + 1]] + r[n + 3..] == s
  {
  }

  /** The two commands surround the first kubeadm command; taking them out gives the old list back. */
  lemma {:induction false} InjectionSurrounds(cmds: seq<Value>, n: nat, r: seq<Value>)
    requires AroundKubeadm(cmds) == Some(r) && n == KubeadmIndex(cmds)
    ensures |r| == |cmds| + 2 && n < |cmds|
    ensures r[n] == Text("bash /etc/kubernetes/kube-vip-pre.sh") && r[n + 1] == cmds[n] && IsKubeadm(cmds[n])
    ensures r[n + 2] == Text("bash /etc/kubernetes/kube-vip-post.sh")
    ensures r[..n] == cmds[..n] && forall k :: 0 <= k < n ==> !IsKubeadm(cmds[k])
    ensures r[..n] + [r[n + 1]] + r[n + 3..] == cmds
  {
    SurroundedParts(cmds, n, PRE_COMMAND, POST_COMMAND);
  }

  /** The document has a runcmd list with a command that runs kubeadm. */
  predicate RunsKubeadm(config: Config) {
    ListAt(config, "runcmd").Some? && exists c <- ListAt(config, "runcmd").value :: IsKubeadm(c)
  }

  /** Injection succeeds without any text, or when a command of the document runs kubeadm; it panics on no map. */
  lemma InjectionSucceeds(config: Config, pre: Value, post: Value)
    ensures WithKubeVip(config, pre, post).Injected? <==> config.NoText? || RunsKubeadm(config)
    ensures WithKubeVip(config, pre, post).Panics? <==> config.NoDocument?
    ensures WithKubeVip(config, pre, post).NoRuncmd? <==> config.Parsed? && ListAt(config, RUNCMD).None?
  {
    if config.Parsed? && ListAt(config, RUNCMD).Some? {
      InjectionFails(ListAt(config, RUNCMD).value);
    }
  }

  /**
   What injection does to a document: the two scripts end the list of files, the
   two commands surround the first kubeadm command, and nothing else changes.
   */
  lemma InjectedDocument(config: Config, pre: Value, post: Value)
    requires RunsKubeadm(config)
    ensures WithKubeVip(config, pre, post).Injected?
    ensures var r := WithKubeVip(config, pre, post).config;
            && r.Parsed? && r.entries.Keys == config.entries.Keys + {"write_files"}
            && r.entries - {"write_files", "runcmd"} == config.entries - {"write_files", "runcmd"}
            && ListAt(r, "write_files") == Some(OrEmpty(ListAt(config, "write_files")) + [pre, post])
            && ListAt(r, "runcmd").Some? && ListAt(r, "runcmd") == AroundKubeadm(ListAt(config, "runcmd").value)
  {
    SectionsDiffer();
    InjectionFails(ListAt(config, RUNCMD).value);
  }

  /** Injecting first and merging the keys into what that gives. */
  function InjectThenMerge(config: Config, keys: seq<string>, pre: Value, post: Value): Injected {
    match WithKubeVip(config, pre, post)
    case Injected(c) => Injected(Merged(c, keys))
    case error => error
  }

  lemma SectionsDiffer()
    ensures SSH_KEYS != RUNCMD && SSH_KEYS != WRITE_FILES && WRITE_FILES != RUNCMD
  {
  }

  lemma UpdatesCommute<K, V>(m: map<K, V>, a: K, x: V, b: K, y: V, c: K, z: V)
    requires a != b && a != c
    ensures m[a := x][b := y][c := z] == m[b := y][c := z][a := x]
  {
  }

  lemma CommuteOnMap(entries: map<string, Value>, keys: seq<string>, pre: Value, post: Value)
    requires keys != []
    ensures WithKubeVip(Merged(Parsed(entries), keys), pre, post) == InjectThenMerge(Parsed(entries), keys, pre, post)
  {
    SectionsDiffer();
    var config := Parsed(entries);
    var merged := Merged(config, keys);
    assert ListAt(merged, RUNCMD) == ListAt(config, RUNCMD);
    assert ListAt(merged, WRITE_FILES) == ListAt(config, WRITE_FILES);
    var injected := WithKubeVip(config, pre, post);
    if injected.Injected? {
      assert ListAt(injected.config, SSH_KEYS) == ListAt(config, SSH_KEYS);
      UpdatesCommute(entries, SSH_KEYS, merged.entries[SSH_KEYS], WRITE_FILES, injected.config.entries[WRITE_FILES],
                     RUNCMD, injected.config.entries[RUNCMD]);
    }
  }

  /** The two enrichments commute, errors included, except on a document that is no map and gets keys. */
  lemma EnrichmentsCommute(config: Config, keys: seq<string>, pre: Value, post: Value)
    ensures WithKubeVip(Merged(config, keys), pre, post) == InjectThenMerge(config, keys, pre, post)
        <==> config.Parsed? || keys == []
  {
    SectionsDiffer();
    if config.Parsed? && keys != [] {
      CommuteOnMap(config.entries, keys, pre, post);
    }
  }
}
