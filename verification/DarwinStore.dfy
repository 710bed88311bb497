/** The key store as one thread runs it, with its dictionary and retain counts updated in place. */
module DarwinStore {
  import opened Options
  import opened Posix
  import opened KeyStore
  import opened KeyStoreAtomic

  class CFStore {
    var dict: map<string, Data>
    var retains: map<Data, int>
    var made: nat

    function Count(d: Data): int
      reads this
    {
      if d in retains then retains[d] else 0
    }

    /** Between calls every payload is retained by its dictionary entry and by nothing else. */
    ghost predicate Valid()
      reads this
    {
      && OneKeyEach(dict)
      && (forall d :: Count(d) == if d in dict.Values then 1 else 0)
      && (forall d :: d in dict.Values ==> d.id < made)
    }

    ghost function Contents(): Store
      reads this
    {
      map key | key in dict :: dict[key].bytes
    }

    constructor ()
      ensures Valid() && Contents() == map[]
    {
      dict, retains, made := map[], map[], 0;
    }

    /** CFDictionaryRemoveValue */
    method RemoveValue(key: string)
      modifies this`dict, this`retains
      ensures dict == old(dict) - {key}
      ensures forall d :: Count(d) == old(Count(d)) - if key in old(dict) && old(dict)[key] == d then 1 else 0
    {
      if key in dict {
        retains := retains[dict[key] := Count(dict[key]) - 1];
        dict := dict - {key};
      }
    }

    /** CFDictionaryAddValue keeps an existing entry. */
    method AddValue(key: string, data: Data)
      modifies this`dict, this`retains
      ensures dict == if key in old(dict) then old(dict) else old(dict)[key := data]
      ensures forall d :: Count(d) == old(Count(d)) + if key !in old(dict) && d == data then 1 else 0
    {
      if key !in dict {
        dict := dict[key := data];
        retains := retains[data := Count(data) + 1];
      }
    }

    method AddKey(desc: Option<string>, payload: Option<Bytes>, stringOk: bool, dataOk: bool) returns (out: Result)
      requires Valid()
      modifies this
      ensures Valid()
      ensures out == if desc.None? || payload.None? || payload.value == [] then Error(EINVAL)
                     else if !stringOk || !dataOk then Error(ENOMEM)
                     else Ok
      ensures Contents() == if out == Ok then After(old(Contents()), EAdd(desc.value, payload.value))
                            else old(Contents())
    {
      if desc.None? || payload.None? || payload.value == [] {
        return Error(EINVAL);
      }
      if !stringOk || !dataOk {
        return Error(ENOMEM);
      }
      var key, data := desc.value, Data(made, payload.value);
      assert data !in dict.Values;
      made := made + 1;
      retains := retains[data := 1];
      Replace(key, data);
      retains := retains[data := Count(data) - 1];
      return Ok;
    }

    /** The locked section of add_key: the caller owns one reference to the new payload. */
    method Replace(key: string, data: Data)
      requires OneKeyEach(dict) && data !in dict.Values
      requires forall d :: Count(d) == if d == data || d in dict.Values then 1 else 0
      modifies this`dict, this`retains
      ensures OneKeyEach(dict) && dict == (old(dict) - {key})[key := data]
      ensures forall d :: d in dict.Values ==> d == data || d in old(dict).Values
      ensures forall d :: Count(d) == (if d in dict.Values then 1 else 0) + (if d == data then 1 else 0)
    {
      ghost var was := dict;
      assert key in was ==> was[key] in was.Values;
      RemoveValue(key);
      AddValue(key, data);
      ValuesReplaced(was, key, data);
    }

    method ReadKey(desc: Option<string>, room: Option<nat>, buffer: bool, stringOk: bool) returns (out: Result)
      requires Valid()
      modifies this`retains
      ensures Valid() && Contents() == old(Contents())
      ensures out == if desc.None? || room.None? then Error(EINVAL)
                     else if !stringOk then Error(ENOMEM)
                     else Answer(Lookup(old(Contents()), desc.value), room.value, buffer)
    {
      if desc.None? || room.None? {
        return Error(EINVAL);
      }
      if !stringOk {
        return Error(ENOMEM);
      }
      if desc.value !in dict {
        return Error(ENOENT);
      }
      var data := dict[desc.value];
      retains := retains[data := Count(data) + 1];
      out := if room.value < |data.bytes| then Error(ENOSPC)
             else Read(|data.bytes|, if buffer then Some(data.bytes) else None);
      retains := retains[data := Count(data) - 1];
    }

    method RemoveKey(desc: Option<string>)
      requires Valid()
      modifies this
      ensures Valid()
      ensures Contents() == if desc.None? then old(Contents()) else After(old(Contents()), ERemove(desc.value))
    {
      if desc.Some? {
        ghost var was := dict;
        RemoveValue(desc.value);
        ValuesRemoved(was, desc.value);
      }
    }
  }

  lemma ValuesRemoved(dict: map<string, Data>, key: string)
    requires OneKeyEach(dict)
    ensures forall d :: d in (dict - {key}).Values <==> d in dict.Values && !(key in dict && dict[key] == d)
  {
    forall d | d in dict.Values && !(key in dict && dict[key] == d)
      ensures d in (dict - {key}).Values
    {
      var k :| k in dict && dict[k] == d;
      assert k in dict - {key} && (dict - {key})[k] == d;
    }
  }

  lemma ValuesReplaced(dict: map<string, Data>, key: string, data: Data)
    requires OneKeyEach(dict) && data !in dict.Values
    ensures var dict' := (dict - {key})[key := data];
            && OneKeyEach(dict')
            && forall d :: d in dict'.Values <==> d == data || (d in dict.Values && !(key in dict && dict[key] == d))
  {
    var dict' := (dict - {key})[key := data];
    ValuesRemoved(dict, key);
    assert dict'[key] == data;
    forall d | d in (dict - {key}).Values
      ensures d in dict'.Values
    {
      var k :| k in dict - {key} && (dict - {key})[k] == d;
      assert k in dict' && dict'[k] == d;
    }
  }
}
