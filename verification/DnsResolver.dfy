/** The DNS server's side: a new generated file is checked, installed and rolled back again if the
    server does not reload it. A remembered hash keeps the same file from being tried twice. */
module DnsResolver {
  import opened Text

  const HOME_RECORD: string := "local-data: \"home.danhughes.dev. 60 IN A 10.10.10.20\""

  /** grep -Fqx: the home record is a whole line of the file. */
  predicate HasHomeRecord(x: string) {
    exists i: nat :: i <= |x| && PieceAt(x, '\n', HOME_RECORD, i)
  }

  /** What unbound-checkconf says of a file, and its hash. */
  datatype Tools = Tools(check: string -> bool, hash: string -> string) {
    predicate Accepts(x: string) {
      x != "" && HasHomeRecord(x) && check(x)
    }
  }

  /** The hash has no collisions and is never the empty string. */
  ghost predicate Collisionless(hash: string -> string) {
    (forall x, y :: hash(x) == hash(y) ==> x == y) && forall x :: hash(x) != ""
  }

  /** One poll: the generated file, if it is there, and whether a reload would succeed. */
  datatype Poll = Poll(generated: Option<string>, reloadOk: bool)

  /** The installed file after a poll, for a resolver that remembers nothing. */
  function Installed(tools: Tools, runtime: string, p: Poll): string {
    if p.generated.Some? && tools.Accepts(p.generated.value) && p.reloadOk then p.generated.value else runtime
  }

  function InstalledAfter(tools: Tools, runtime: string, polls: seq<Poll>): string {
    if polls == [] then runtime
    else Installed(tools, InstalledAfter(tools, runtime, polls[..|polls| - 1]), polls[|polls| - 1])
  }

  /** The poll offers an acceptable file that is not installed, so a reload is tried. */
  predicate TriesReload(tools: Tools, runtime: string, p: Poll) {
    p.generated.Some? && tools.Accepts(p.generated.value) && p.generated.value != runtime
  }

  function ReloadsDuring(tools: Tools, runtime: string, polls: seq<Poll>): nat {
    if polls == [] then 0
    else
      var g := polls[..|polls| - 1];
      ReloadsDuring(tools, runtime, g)
      + if TriesReload(tools, InstalledAfter(tools, runtime, g), polls[|polls| - 1]) then 1 else 0
  }

  class Resolver {
    const tools: Tools
    var runtime: string
    var previous: Option<string>
    var loaded: string
    var lastHash: string
    var started: bool
    var reloads: nat

    /** The installed file is acceptable and is what the server has loaded; a remembered hash belongs
        to a file that was empty, was rejected, or is installed. */
    ghost predicate Valid()
      reads this
    {
      && Collisionless(tools.hash)
      && started && previous == None
      && tools.Accepts(runtime) && loaded == runtime
      && forall x :: tools.hash(x) == lastHash ==> !tools.Accepts(x) || x == runtime
    }

    constructor (t: Tools, initial: string)
      ensures tools == t && lastHash == "" && previous == None && !started && reloads == 0
    {
      tools, runtime, previous, loaded, lastHash, started, reloads := t, initial, None, "", "", false, 0;
    }

    /** The bounded wait for a first acceptable file, and the server's start. */
    method Startup(files: nat -> Option<string>, attempts: nat) returns (ok: bool, used: nat)
      requires Collisionless(tools.hash) && lastHash == "" && previous == None
      modifies this
      ensures ok <==> exists a: nat :: a < attempts && files(a).Some? && tools.Accepts(files(a).value)
      ensures ok ==> Valid() && 0 < used <= attempts && files(used - 1) == Some(runtime)
      ensures ok ==> forall a: nat :: a < used - 1 ==> !(files(a).Some? && tools.Accepts(files(a).value))
      ensures !ok ==> used == attempts && !started
      ensures reloads == old(reloads)
    {
      hide HasHomeRecord;
      started := false;
      used := 0;
      ok := false;
      while used < attempts
        invariant used <= attempts && previous == None && lastHash == "" && !started && reloads == old(reloads)
        invariant forall a: nat :: a < used ==> !(files(a).Some? && tools.Accepts(files(a).value))
      {
        var file := files(used);
        used := used + 1;
        if file.Some? && file.value != "" {
          runtime := file.value;
          if HasHomeRecord(runtime) && tools.check(runtime) {
            assert files(used - 1).Some? && tools.Accepts(files(used - 1).value);
            loaded := runtime;
            started := true;
            return true, used;
          }
        }
      }
    }

    /** One poll installs exactly what a resolver without a memory would install. */
    method ApplyGenerated(p: Poll)
      requires Valid()
      modifies this
      ensures Valid()
      ensures runtime == Installed(tools, old(runtime), p)
      ensures reloads == old(reloads) + if TriesReload(tools, old(runtime), p) then 1 else 0
      ensures p.generated.Some? ==>
                (lastHash == tools.hash(p.generated.value) <==>
                   old(lastHash) == tools.hash(p.generated.value)
                   || !TriesReload(tools, old(runtime), p) || p.reloadOk)
    {
      hide HasHomeRecord;
      if p.generated.None? {
        return;
      }
      var x := p.generated.value;
      var h := tools.hash(x);
      if h == lastHash {
        return;
      }
      if x == "" {
        lastHash := h;
        return;
      }
      if x == runtime {
        lastHash := h;
        return;
      }
      previous := Some(runtime);
      runtime := x;
      if !HasHomeRecord(runtime) || !tools.check(runtime) {
        runtime := previous.value;
        previous := None;
        lastHash := h;
        return;
      }
      if started {
        reloads := reloads + 1;
        if !p.reloadOk {
          runtime := previous.value;
          previous := None;
          return;
        }
        loaded := runtime;
      }
      previous := None;
      lastHash := h;
    }

    /** The same over every sequence of polls. */
    method Run(polls: seq<Poll>)
      requires Valid()
      modifies this
      ensures Valid()
      ensures runtime == InstalledAfter(tools, old(runtime), polls)
      ensures reloads == old(reloads) + ReloadsDuring(tools, old(runtime), polls)
    {
      hide Collisionless, Installed, TriesReload;
      for i := 0 to |polls|
        invariant Valid()
        invariant runtime == InstalledAfter(tools, old(runtime), polls[..i])
        invariant reloads == old(reloads) + ReloadsDuring(tools, old(runtime), polls[..i])
      {
        assert polls[..i + 1][..i] == polls[..i];
        ApplyGenerated(polls[i]);
      }
      assert polls[..|polls|] == polls;
    }
  }

  /** The same acceptable file at every poll. */
  predicate Stable(tools: Tools, x: string, polls: seq<Poll>) {
    tools.Accepts(x) && forall p :: p in polls ==> p.generated == Some(x)
  }

  /** A stable acceptable file is installed from the first successful reload on, and not before. */
  lemma {:induction false} StableFileIsInstalled(tools: Tools, runtime: string, x: string, polls: seq<Poll>)
    requires Stable(tools, x, polls)
    ensures InstalledAfter(tools, runtime, polls) ==
            if exists p :: p in polls && p.reloadOk then x else runtime
  {
    hide HasHomeRecord;
    if polls != [] {
      var g, last := polls[..|polls| - 1], polls[|polls| - 1];
      assert polls == g + [last];
      StableFileIsInstalled(tools, runtime, x, g);
      assert last in polls;
    }
  }

  /** It is tried again at every poll up to that reload, and never after it. */
  lemma {:induction false} StableFileIsRetried(tools: Tools, runtime: string, x: string, polls: seq<Poll>, n: nat)
    requires Stable(tools, x, polls) && x != runtime && n <= |polls|
    requires forall i :: 0 <= i < n ==> !polls[i].reloadOk
    requires n < |polls| ==> polls[n].reloadOk
    ensures ReloadsDuring(tools, runtime, polls) == if n < |polls| then n + 1 else n
    decreases |polls|
  {
    hide HasHomeRecord;
    if polls != [] {
      var k := |polls| - 1;
      var g := polls[..k];
      StableFileIsInstalled(tools, runtime, x, g);
      StableFileIsRetried(tools, runtime, x, g, if n <= k then n else k);
      assert polls[k] in polls;
      if n < k {
        assert g[n] in g && g[n].reloadOk;
      }
    }
  }
}
