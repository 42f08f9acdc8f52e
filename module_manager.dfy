/** core/module_manager.cpp: modules made by registered factories, filed
    in a std::map under the hash of their name and driven through their
    life cycle in hash order.

    Modules and factories are handles (0 is NULL). What a module's
    connect, postConnect, startup, update or shutdown returns, and what a
    factory's createModule returns, comes from code outside this model, so
    it is a parameter: `answer` gives each module's reply to the call, and
    `created` the new module. */
module ModuleManagement {
  import opened Wrappers
  import opened OrderedMap
  import StringHashing

  /** ModuleDescriptor: the module's name and the module. */
  datatype ModuleDescriptor = ModuleDescriptor(name: string, instance: nat)

  /** The non-null modules in map order, which is the order every loop
      visits them. */
  function Handles(modules: seq<Entry<ModuleDescriptor>>): (hs: seq<nat>)
    ensures |hs| <= |modules|
    ensures forall i :: 0 <= i < |hs| ==> hs[i] != 0
    ensures (forall i :: 0 <= i < |modules| ==> modules[i].value.instance != 0) ==> |hs| == |modules|
  {
    if modules == [] then []
    else
      var rest := Handles(modules[1..]);
      if modules[0].value.instance != 0 then [modules[0].value.instance] + rest else rest
  }

  /** connect, postConnect, startup and update: call the modules in order
      while every call so far returned true. The result is the
      conjunction of the replies, which is true exactly when every module
      answers true; the modules called are a prefix of all of them, and on
      failure they end with the first that answered false. */
  function UntilFailure(hs: seq<nat>, answer: nat -> bool): (r: (bool, seq<nat>))
    ensures r.0 <==> forall i :: 0 <= i < |hs| ==> answer(hs[i])
    ensures r.0 ==> r.1 == hs
    ensures !r.0 ==> 0 < |r.1| <= |hs| && r.1 == hs[..|r.1|] && !answer(r.1[|r.1| - 1])
    ensures forall i :: 0 <= i < |r.1| - 1 ==> answer(r.1[i])
  {
    if hs == [] then (true, [])
    else if !answer(hs[0]) then (false, [hs[0]])
    else
      var rest := UntilFailure(hs[1..], answer);
      assert forall i :: 1 <= i < |hs| ==> hs[i] == hs[1..][i - 1];
      (rest.0, [hs[0]] + rest.1)
  }

  /** The module filed under a name's hash, or NULL. */
  function ModuleOf(modules: seq<Entry<ModuleDescriptor>>, name: string): (m: nat)
    ensures StringHashing.Hash(name) !in Keys(modules) ==> m == 0
    ensures StringHashing.Hash(name) in Keys(modules) ==>
      exists i :: 0 <= i < |modules| && modules[i].key == StringHashing.Hash(name) && m == modules[i].value.instance
  {
    match Find(modules, StringHashing.Hash(name))
    case None => 0
    case Some(i) => modules[i].value.instance
  }

  /** The factory registry (a static map shared by every manager). */
  class FactoryRegistry {
    var factories: seq<Entry<nat>>

    ghost predicate Valid()
      reads this
    {
      Sorted(factories)
    }

    constructor ()
      ensures Valid() && factories == []
    {
      factories := [];
    }

    /** registerFactory: false, changing nothing, when the type name's hash
        is already registered; otherwise registers the factory. */
    method RegisterFactory(moduleTypeName: string, factory: nat) returns (ok: bool)
      requires Valid()
      modifies this
      ensures Valid()
      ensures ok <==> StringHashing.Hash(moduleTypeName) !in Keys(old(factories))
      ensures ok ==> factories == Insert(old(factories), StringHashing.Hash(moduleTypeName), factory)
      ensures ok ==> Keys(factories) == Keys(old(factories)) + {StringHashing.Hash(moduleTypeName)}
      ensures !ok ==> factories == old(factories)
    {
      var hash := StringHashing.GetHash(moduleTypeName);
      if Find(factories, hash).Some? {
        return false;
      }
      InsertSorted(factories, hash, factory);
      InsertKeys(factories, hash, factory);
      factories := Insert(factories, hash, factory);
      return true;
    }
  }

  class ModuleManager {
    var modules: seq<Entry<ModuleDescriptor>>

    /** The map is ordered and, since addModule files only modules a
        factory made, holds no NULL module. */
    ghost predicate Valid()
      reads this
    {
      Sorted(modules) && forall i :: 0 <= i < |modules| ==> modules[i].value.instance != 0
    }

    constructor ()
      ensures Valid() && modules == []
    {
      modules := [];
    }

    /** getModule: the module filed under the name's hash, or NULL. */
    method GetModule(moduleName: string) returns (m: nat)
      ensures m == ModuleOf(modules, moduleName)
    {
      var hash := StringHashing.GetHash(moduleName);
      var found := Find(modules, hash);
      if found.Some? {
        return modules[found.value].value.instance;
      }
      return 0;
    }

    /** addModule: false, changing nothing, when no factory is registered
        for the type or it makes no module; otherwise files the new module
        under the name's hash and returns true, even when a module of that
        name is already filed, which is then kept (the new one is leaked). */
    method AddModule(registry: FactoryRegistry, moduleTypeName: string, moduleName: string, created: nat) returns (ok: bool)
      requires Valid() && registry.Valid()
      modifies this
      ensures Valid()
      ensures ok <==> StringHashing.Hash(moduleTypeName) in Keys(registry.factories) && created != 0
      ensures ok ==> modules == Insert(old(modules), StringHashing.Hash(moduleName), ModuleDescriptor(moduleName, created))
      ensures !ok ==> modules == old(modules)
    {
      var hash := StringHashing.GetHash(moduleTypeName);
      var foundFactory := Find(registry.factories, hash);
      if foundFactory.Some? {
        if created != 0 {
          var nameHash := StringHashing.GetHash(moduleName);
          var entry := ModuleDescriptor(moduleName, created);
          InsertSorted(modules, nameHash, entry);
          InsertOnlyAdds(modules, nameHash, entry);
          modules := Insert(modules, nameHash, entry);
          return true;
        }
      }
      return false;
    }

    /** The life-cycle loop shared by connect, postConnect, startup and
        update: the modules called and the result. */
    method Visit(answer: nat -> bool) returns (result: bool, called: seq<nat>)
      ensures (result, called) == UntilFailure(Handles(modules), answer)
    {
      var list := modules;
      result := true;
      called := [];
      var i := 0;
      while i < |list| && result
        invariant i <= |list|
        invariant called == Handles(list[..i])
        invariant result ==> AllAnswer(called, answer)
        invariant !result ==> called != [] && AllAnswer(called[..|called| - 1], answer) && !answer(called[|called| - 1])
      {
        Step(list, i);
        if list[i].value.instance != 0 {
          var reply := answer(list[i].value.instance);
          AllAnswerAppend(called, list[i].value.instance, answer);
          called := called + [list[i].value.instance];
          result := result && reply;
        }
        i := i + 1;
      }
      if result {
        assert list[..i] == list;
      } else {
        assert list == list[..i] + list[i..];
        HandlesConcat(list[..i], list[i..]);
        var done := called[..|called| - 1];
        assert called == done + [called[|called| - 1]];
        UntilFailureAppend(done, called[|called| - 1], Handles(list[i..]), answer);
      }
    }

    /** connect. */
    method Connect(answer: nat -> bool) returns (result: bool, called: seq<nat>)
      ensures (result, called) == UntilFailure(Handles(modules), answer)
    {
      result, called := Visit(answer);
    }

    /** postConnect. */
    method PostConnect(answer: nat -> bool) returns (result: bool, called: seq<nat>)
      ensures (result, called) == UntilFailure(Handles(modules), answer)
    {
      result, called := Visit(answer);
    }

    /** startup. */
    method Startup(answer: nat -> bool) returns (result: bool, called: seq<nat>)
      ensures (result, called) == UntilFailure(Handles(modules), answer)
    {
      result, called := Visit(answer);
    }

    /** update (the timer is handed on to the modules). */
    method Update(answer: nat -> bool) returns (result: bool, called: seq<nat>)
      ensures (result, called) == UntilFailure(Handles(modules), answer)
    {
      result, called := Visit(answer);
    }

    /** shutdown: calls every module's shutdown, failures or not, then
        deletes the modules only if every one succeeded: the flag is not
        changed by the deleting loop, so it deletes all or none. The map
        keeps its entries, deleted modules included. */
    method Shutdown(answer: nat -> bool) returns (result: bool, called: seq<nat>, deleted: seq<nat>)
      ensures called == Handles(modules)
      ensures result <==> AllAnswer(called, answer)
      ensures deleted == if result then called else []
    {
      var list := modules;
      result := true;
      called := [];
      var i := 0;
      while i < |list|
        invariant i <= |list|
        invariant called == Handles(list[..i])
        invariant result <==> AllAnswer(called, answer)
      {
        Step(list, i);
        if list[i].value.instance != 0 {
          var reply := answer(list[i].value.instance);
          AllAnswerAppend(called, list[i].value.instance, answer);
          called := called + [list[i].value.instance];
          result := result && reply;
        }
        i := i + 1;
      }
      assert list[..i] == list;
      deleted := [];
      i := 0;
      while i < |list| && result
        invariant i <= |list|
        invariant deleted == Handles(list[..i])
        invariant !result ==> i == 0
      {
        Step(list, i);
        if list[i].value.instance != 0 {
          deleted := deleted + [list[i].value.instance];
        }
        i := i + 1;
      }
      if result {
        assert list[..i] == list;
      } else {
        assert list[..i] == [];
      }
    }
  }

  /** Every module in the list answers true. */
  predicate AllAnswer(hs: seq<nat>, answer: nat -> bool) {
    forall i :: 0 <= i < |hs| ==> answer(hs[i])
  }

  lemma AllAnswerAppend(hs: seq<nat>, h: nat, answer: nat -> bool)
    ensures AllAnswer(hs + [h], answer) <==> AllAnswer(hs, answer) && answer(h)
    ensures (hs + [h])[..|hs|] == hs
  {
    assert forall i :: 0 <= i < |hs| ==> (hs + [h])[i] == hs[i];
    assert (hs + [h])[|hs|] == h;
  }

  /** One loop step: the handles up to i + 1 are those up to i and the
      next entry's, if not NULL. */
  lemma Step(list: seq<Entry<ModuleDescriptor>>, i: nat)
    requires i < |list|
    ensures Handles(list[..i + 1]) == Handles(list[..i]) + (if list[i].value.instance != 0 then [list[i].value.instance] else [])
  {
    assert list[..i + 1] == list[..i] + [list[i]];
    HandlesAppend(list[..i], list[i]);
  }

  lemma {:induction false} HandlesAppend(modules: seq<Entry<ModuleDescriptor>>, e: Entry<ModuleDescriptor>)
    ensures Handles(modules + [e]) == Handles(modules) + (if e.value.instance != 0 then [e.value.instance] else [])
  {
    if modules != [] {
      assert (modules + [e])[0] == modules[0];
      assert (modules + [e])[1..] == modules[1..] + [e];
      HandlesAppend(modules[1..], e);
    }
  }

  lemma {:induction false} HandlesConcat(a: seq<Entry<ModuleDescriptor>>, b: seq<Entry<ModuleDescriptor>>)
    ensures Handles(a + b) == Handles(a) + Handles(b)
  {
    if a != [] {
      assert (a + b)[0] == a[0];
      assert (a + b)[1..] == a[1..] + b;
      HandlesConcat(a[1..], b);
      var head := if a[0].value.instance != 0 then [a[0].value.instance] else [];
      assert Handles(a + b) == head + Handles(a[1..] + b);
      assert Handles(a) == head + Handles(a[1..]);
    } else {
      assert a + b == b;
    }
  }

  /** Running past a prefix that all answered true continues with the next
      module: the outcome for the whole list is the prefix followed by the
      outcome for the rest. */
  lemma {:induction false} UntilFailureAppend(done: seq<nat>, h: nat, rest: seq<nat>, answer: nat -> bool)
    requires UntilFailure(done, answer).0
    ensures !answer(h) ==> UntilFailure(done + [h] + rest, answer) == (false, done + [h])
    ensures answer(h) ==> UntilFailure(done + [h], answer) == (true, done + [h])
  {
    if done != [] {
      assert (done + [h] + rest)[1..] == done[1..] + [h] + rest;
      assert (done + [h])[1..] == done[1..] + [h];
      UntilFailureAppend(done[1..], h, rest, answer);
    }
  }

  /** A module added under a fresh name is what getModule then returns,
      and every other name's module is unchanged. */
  lemma AddThenGetModule(modules: seq<Entry<ModuleDescriptor>>, name: string, created: nat, other: string)
    requires Sorted(modules) && StringHashing.Hash(name) !in Keys(modules)
    requires StringHashing.Hash(other) != StringHashing.Hash(name)
    ensures ModuleOf(Insert(modules, StringHashing.Hash(name), ModuleDescriptor(name, created)), name) == created
    ensures ModuleOf(Insert(modules, StringHashing.Hash(name), ModuleDescriptor(name, created)), other) == ModuleOf(modules, other)
  {
    var h := StringHashing.Hash(name);
    var d := ModuleDescriptor(name, created);
    var r := Insert(modules, h, d);
    InsertContents(modules, h, d);
    InsertSorted(modules, h, d);
    InsertKeys(modules, h, d);
    match Find(modules, StringHashing.Hash(other))
    case None =>
    case Some(i) =>
      assert modules[i] in r;
      var j :| 0 <= j < |r| && r[j] == modules[i];
      FindUnique(r, StringHashing.Hash(other), j);
  }

  /** Adding a module under a name already filed returns true but leaves
      the map, and so getModule, as it was. */
  lemma DuplicateNameKeepsFirst(modules: seq<Entry<ModuleDescriptor>>, name: string, created: nat)
    requires Sorted(modules) && ModuleOf(modules, name) != 0
    ensures Insert(modules, StringHashing.Hash(name), ModuleDescriptor(name, created)) == modules
  {
  }

  /** With no NULL entries (as addModule guarantees), every life-cycle loop
      that succeeds has called each filed module once, in hash order. */
  lemma SuccessCallsEveryModule(modules: seq<Entry<ModuleDescriptor>>, answer: nat -> bool)
    requires forall i :: 0 <= i < |modules| ==> modules[i].value.instance != 0
    requires UntilFailure(Handles(modules), answer).0
    ensures |UntilFailure(Handles(modules), answer).1| == |modules|
    ensures forall i :: 0 <= i < |modules| ==> UntilFailure(Handles(modules), answer).1[i] == modules[i].value.instance
  {
    HandlesAll(modules);
  }

  lemma {:induction false} HandlesAll(modules: seq<Entry<ModuleDescriptor>>)
    requires forall i :: 0 <= i < |modules| ==> modules[i].value.instance != 0
    ensures forall i :: 0 <= i < |modules| ==> Handles(modules)[i] == modules[i].value.instance
  {
    if modules != [] {
      HandlesAll(modules[1..]);
    }
  }
}
