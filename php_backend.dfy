/** `DebugBackend` of src/Cache/DebugBackend.php: a memory cache backend that prints one trace
    comment for every get, set and delete, and only then hands the call to its parent. */
module PhpBackend {
  import opened Wrappers
  import opened Json

  /** `Cache::PERMANENT` of Drupal core. */
  const Permanent: int := -1

  /** The fully qualified name `Cache::PERMANENT` resolves to inside the namespace
      Drupal\cache_debug\Cache, which has no `use` statement for Drupal core's Cache class. */
  const UnimportedCacheClass: string := "Drupal\\cache_debug\\Cache\\Cache"

  /** The `$data` array `printComment` encodes: keys `method`, `cid`, `tags`, in that order;
      `tags` is `null` when no tags were passed. */
  function TraceRecord(name: string, cid: string, tags: Option<seq<string>>): Json
  {
    JObject([("method", JString(name)), ("cid", JString(cid)), ("tags", TagsJson(tags))])
  }

  /** Read back as an object, the record gives the method name, the cache id, and `null` under
      `tags` exactly when no tags were passed, otherwise the tags as an array of strings. */
  lemma {:induction false} TraceRecordMembers(name: string, cid: string, tags: Option<seq<string>>)
    ensures var r := TraceRecord(name, cid, tags);
            && Member(r, "method") == Some(JString(name))
            && Member(r, "cid") == Some(JString(cid))
            && (Member(r, "tags") == Some(JNull) <==> tags.None?)
            && (tags.Some? ==> Member(r, "tags") == Some(JArray(seq(|tags.value|, i requires 0 <= i < |tags.value| => JString(tags.value[i])))))
  {
    var ms := TraceRecord(name, cid, tags).members;
    assert Lookup(ms, "cid") == Lookup(ms[..2], "cid");
    assert ms[..2][..1] == ms[..1];
    assert Lookup(ms, "method") == Lookup(ms[..1], "method");
  }

  function TagsJson(tags: Option<seq<string>>): Json
  {
    match tags
    case None => JNull
    case Some(ts) => JArray(seq(|ts|, i requires 0 <= i < |ts| => JString(ts[i])))
  }

  /** `sprintf('<!-- CACHE_DEBUG:%s -->', $json)`: the comment opener, a space, the marker, the
      JSON text, then a space and the closer. */
  function CommentMarkup(json: string): (m: string)
    ensures |m| == |json| + 21
    ensures m[..4] == "<!--" && m[4..17] == " CACHE_DEBUG:"
    ensures m[17..|m| - 4] == json && m[|m| - 4..] == " -->"
  {
    "<!-- CACHE_DEBUG:" + json + " -->"
  }

  /** The text `printComment($method, $cid, $tags)` prints: the record's JSON text between the
      opener with its marker and the closer, each closer preceded by a space. */
  function TraceComment(encode: Json -> string, name: string, cid: string, tags: Option<seq<string>>): (markup: string)
    ensures |markup| == |encode(TraceRecord(name, cid, tags))| + 21
    ensures markup[..4] == "<!--" && markup[4..17] == " CACHE_DEBUG:"
    ensures markup[17..|markup| - 4] == encode(TraceRecord(name, cid, tags))
    ensures markup[|markup| - 4..] == " -->"
  {
    CommentMarkup(encode(TraceRecord(name, cid, tags)))
  }

  /** A call to the parent `MemoryBackend`, with the arguments it receives. */
  datatype Op<D> =
    | GetOp(cid: string, allowInvalid: bool)
    | SetOp(cid: string, data: D, expire: int, tags: seq<string>)
    | DeleteOp(cid: string)

  /** The method name each operation reports. */
  function MethodName<D>(op: Op<D>): string
  {
    match op
    case GetOp(_, _) => "get"
    case SetOp(_, _, _, _) => "set"
    case DeleteOp(_) => "delete"
  }

  /** The record each operation reports: only `set` passes tags, the others leave the default
      `NULL`. */
  function OpRecord<D>(op: Op<D>): Json
  {
    TraceRecord(MethodName(op), op.cid, if op.SetOp? then Some(op.tags) else None)
  }

  /** Each operation's record names its method and its cache id; only `set` reports tags, the
      others report `null`. */
  lemma {:induction false} OpRecordMembers<D>(op: Op<D>)
    ensures var r := OpRecord(op);
            && Member(r, "method") == Some(JString(MethodName(op)))
            && Member(r, "cid") == Some(JString(op.cid))
            && (Member(r, "tags") == Some(JNull) <==> !op.SetOp?)
            && (op.SetOp? ==> Member(r, "tags") == Some(TagsJson(Some(op.tags))))
  {
    TraceRecordMembers(MethodName(op), op.cid, if op.SetOp? then Some(op.tags) else None);
  }

  /** One observable step of the backend: text printed, or a call handed to the parent. */
  datatype Event<D> = Printed(markup: string) | Delegated(op: Op<D>)

  /** What one operation does, in order: print its comment, then delegate. It prints exactly
      one comment, its own, and its last step is the call to the parent. */
  function OpTrace<D>(encode: Json -> string, op: Op<D>): (step: seq<Event<D>>)
    ensures PrintedText(step) == [CommentMarkup(encode(OpRecord(op)))]
    ensures step[|step| - 1] == Delegated(op)
  {
    var step := [Printed(CommentMarkup(encode(OpRecord(op)))), Delegated(op)];
    assert step[..1][..0] == [];
    assert PrintedText(step[..1]) == [step[0].markup];
    step
  }

  /** What a run of operations does, one after the other. */
  function TraceOf<D>(encode: Json -> string, ops: seq<Op<D>>): (trace: seq<Event<D>>)
    ensures |trace| == 2 * |ops|
  {
    if ops == [] then []
    else
      var n := |ops| - 1;
      TraceOf(encode, ops[..n]) + OpTrace(encode, ops[n])
  }

  /** The text printed along a trace, in order. */
  function PrintedText<D>(trace: seq<Event<D>>): (printed: seq<string>)
    ensures |printed| <= |trace|
  {
    if trace == [] then []
    else
      var n := |trace| - 1;
      PrintedText(trace[..n]) + (if trace[n].Printed? then [trace[n].markup] else [])
  }

  lemma {:induction false} PrintedTextAppend<D>(a: seq<Event<D>>, b: seq<Event<D>>)
    ensures PrintedText(a + b) == PrintedText(a) + PrintedText(b)
    decreases |b|
  {
    if b == [] {
      assert a + b == a;
    } else {
      var n := |b| - 1;
      PrintedTextAppend(a, b[..n]);
      assert (a + b)[..|a + b| - 1] == a + b[..n];
    }
  }

  lemma {:induction false} TraceOfLayout<D>(encode: Json -> string, ops: seq<Op<D>>)
    ensures |TraceOf(encode, ops)| == 2 * |ops|
    ensures forall i :: 0 <= i < |ops| ==>
              && TraceOf(encode, ops)[2 * i] == Printed(CommentMarkup(encode(OpRecord(ops[i]))))
              && TraceOf(encode, ops)[2 * i + 1] == Delegated(ops[i])
  {
    if ops != [] {
      var n := |ops| - 1;
      var prev := ops[..n];
      TraceOfLayout(encode, prev);
      var t := TraceOf(encode, prev);
      var all := TraceOf(encode, ops);
      assert all == t + OpTrace(encode, ops[n]);
      forall i | 0 <= i < |ops|
        ensures && all[2 * i] == Printed(CommentMarkup(encode(OpRecord(ops[i]))))
                && all[2 * i + 1] == Delegated(ops[i])
      {
        if i < n {
          assert prev[i] == ops[i];
          assert all[2 * i] == t[2 * i] && all[2 * i + 1] == t[2 * i + 1];
        }
      }
    }
  }

  lemma {:induction false} PrintedTextOfTrace<D>(encode: Json -> string, ops: seq<Op<D>>)
    ensures |PrintedText(TraceOf(encode, ops))| == |ops|
    ensures forall i :: 0 <= i < |ops| ==>
              PrintedText(TraceOf(encode, ops))[i] == CommentMarkup(encode(OpRecord(ops[i])))
  {
    if ops != [] {
      var n := |ops| - 1;
      var prev := ops[..n];
      PrintedTextOfTrace(encode, prev);
      PrintedTextAppend(TraceOf(encode, prev), OpTrace(encode, ops[n]));
      var before := PrintedText(TraceOf(encode, prev));
      var all := PrintedText(TraceOf(encode, ops));
      assert all == before + [CommentMarkup(encode(OpRecord(ops[n])))];
      forall i | 0 <= i < n ensures all[i] == CommentMarkup(encode(OpRecord(ops[i]))) {
        assert prev[i] == ops[i];
        assert all[i] == before[i];
      }
    }
  }

  /** An error PHP raises. */
  datatype PhpError = ClassNotFound(name: string)

  /** The value set's `$expire` takes AS WRITTEN: given, it is the caller's; omitted, PHP
      evaluates the default `Cache::PERMANENT`, which names a class that does not exist, and
      the call fails before its body runs. */
  function ExpireAsWritten(expire: Option<int>): Result<int, PhpError>
  {
    match expire
    case Some(e) => Success(e)
    case None => Failure(ClassNotFound(UnimportedCacheClass))
  }

  /** The value set's `$expire` takes as intended: the caller's, or Drupal core's
      `Cache::PERMANENT` when omitted. */
  function Expire(expire: Option<int>): (e: int)
    ensures expire.None? ==> e == Permanent
    ensures expire.Some? ==> e == expire.value && ExpireAsWritten(expire) == Success(e)
  {
    match expire
    case Some(e) => e
    case None => Permanent
  }

  /** The value set's `$tags` takes: the caller's, or the default empty array. */
  function Tags(tags: Option<seq<string>>): seq<string>
  {
    match tags
    case Some(ts) => ts
    case None => []
  }

  /** With `$tags` omitted, `set` reports an empty JSON array under `tags`, not `null`, and
      stores an item with no tags. */
  lemma {:induction false} OmittedTagsAreEmpty<D>(cid: string, data: D, expire: int)
    ensures Member(OpRecord(SetOp(cid, data, expire, Tags(None))), "tags") == Some(JArray([]))
    ensures CacheItem(data, expire, Tags(None)).tags == []
  {
    var tags: seq<string> := [];
    TraceRecordMembers("set", cid, Some(tags));
    assert seq(|tags|, i requires 0 <= i < |tags| => JString(tags[i])) == [];
  }

  /** An entry of the parent's store. */
  datatype CacheItem<D> = CacheItem(data: D, expire: int, tags: seq<string>)

  /** The decorated backend. `items` stands for the parent `MemoryBackend`'s store, `trace` for
      what the backend has printed and handed to its parent so far. */
  class DebugBackend<D> {
    const encode: Json -> string
    var items: map<string, CacheItem<D>>
    var trace: seq<Event<D>>

    constructor (encode: Json -> string)
      ensures this.encode == encode && items == map[] && trace == []
    {
      this.encode := encode;
      items := map[];
      trace := [];
    }

    /** `get($cid, $allow_invalid)`: prints, then returns the parent's answer unchanged. */
    method Get(cid: string, allowInvalid: bool) returns (item: Option<CacheItem<D>>)
      modifies this
      ensures items == old(items)
      ensures item == (if cid in old(items) then Some(old(items)[cid]) else None)
      ensures trace == old(trace) + OpTrace(encode, GetOp(cid, allowInvalid))
    {
      PrintComment("get", cid, None);
      item := ParentGet(cid, allowInvalid);
    }

    /** `set($cid, $data, $expire, $tags)` as intended, with `$expire` defaulting to Drupal
        core's `Cache::PERMANENT`: prints the caller's tags (an empty list when omitted), then
        stores through the parent. */
    method Set(cid: string, data: D, expire: Option<int>, tags: Option<seq<string>>)
      modifies this
      ensures items == old(items)[cid := CacheItem(data, Expire(expire), Tags(tags))]
      ensures trace == old(trace) + OpTrace(encode, SetOp(cid, data, Expire(expire), Tags(tags)))
    {
      var e := Expire(expire);
      var ts := Tags(tags);
      PrintComment("set", cid, Some(ts));
      ParentSet(cid, data, e, ts);
    }

    /** `set($cid, $data, $expire, $tags)` as written: with `$expire` omitted, evaluating the
        default `Cache::PERMANENT` fails on the unknown class before the body runs, so nothing is
        printed and nothing is stored; with `$expire` given it behaves as `Set`. */
    method SetAsWritten(cid: string, data: D, expire: Option<int>, tags: Option<seq<string>>)
      returns (r: Outcome<PhpError>)
      modifies this
      ensures expire.None? ==>
                && r == Fail(ClassNotFound(UnimportedCacheClass))
                && items == old(items) && trace == old(trace)
      ensures expire.Some? ==>
                && r == Pass
                && items == old(items)[cid := CacheItem(data, expire.value, Tags(tags))]
                && trace == old(trace) + OpTrace(encode, SetOp(cid, data, expire.value, Tags(tags)))
    {
      var e := ExpireAsWritten(expire);
      if e.Failure? {
        return Fail(e.error);
      }
      Set(cid, data, expire, tags);
      r := Pass;
    }

    /** `delete($cid)`: prints, then deletes through the parent. */
    method Delete(cid: string)
      modifies this
      ensures items == old(items) - {cid}
      ensures trace == old(trace) + OpTrace(encode, DeleteOp(cid))
    {
      PrintComment("delete", cid, None);
      ParentDelete(cid);
    }

    /** `printComment`: prints one trace comment. */
    method PrintComment(name: string, cid: string, tags: Option<seq<string>>)
      modifies this`trace
      ensures trace == old(trace) + [Printed(TraceComment(encode, name, cid, tags))]
    {
      trace := trace + [Printed(CommentMarkup(encode(TraceRecord(name, cid, tags))))];
    }

    /** `parent::get`: the parent's stored item for `cid`, if any. */
    method ParentGet(cid: string, allowInvalid: bool) returns (item: Option<CacheItem<D>>)
      modifies this`trace
      ensures item == (if cid in items then Some(items[cid]) else None)
      ensures trace == old(trace) + [Delegated(GetOp(cid, allowInvalid))]
    {
      item := if cid in items then Some(items[cid]) else None;
      trace := trace + [Delegated(GetOp(cid, allowInvalid))];
    }

    /** `parent::set`: the parent stores the item under `cid`. */
    method ParentSet(cid: string, data: D, expire: int, tags: seq<string>)
      modifies this
      ensures items == old(items)[cid := CacheItem(data, expire, tags)]
      ensures trace == old(trace) + [Delegated(SetOp(cid, data, expire, tags))]
    {
      items := items[cid := CacheItem(data, expire, tags)];
      trace := trace + [Delegated(SetOp(cid, data, expire, tags))];
    }

    /** `parent::delete`: the parent drops the item under `cid`. */
    method ParentDelete(cid: string)
      modifies this
      ensures items == old(items) - {cid}
      ensures trace == old(trace) + [Delegated(DeleteOp(cid))]
    {
      items := items - {cid};
      trace := trace + [Delegated(DeleteOp(cid))];
    }
  }

  /** A caller's run: the backend's trace is that of the operations in the order performed,
      and the parent's answer comes back untouched. */
  method TraceOfCalls<D>(encode: Json -> string, cid: string, data: D, tags: seq<string>)
    returns (found: Option<CacheItem<D>>, printed: seq<string>)
    ensures found == Some(CacheItem(data, Permanent, tags))
    ensures printed == [
      TraceComment(encode, "set", cid, Some(tags)),
      TraceComment(encode, "get", cid, None),
      TraceComment(encode, "delete", cid, None)]
  {
    var backend := new DebugBackend<D>(encode);
    backend.Set(cid, data, Some(Permanent), Some(tags));
    found := backend.Get(cid, false);
    backend.Delete(cid);
    var setStep, getStep := OpTrace(encode, SetOp(cid, data, Permanent, tags)), OpTrace(encode, Op<D>.GetOp(cid, false));
    var deleteStep := OpTrace(encode, Op<D>.DeleteOp(cid));
    assert backend.trace == setStep + getStep + deleteStep;
    PrintedTextAppend(setStep, getStep);
    PrintedTextAppend(setStep + getStep, deleteStep);
    printed := PrintedText(backend.trace);
  }

  /** `set($cid, $data)` on a fresh backend, with `$expire` omitted: as written it fails, prints
      nothing and stores nothing; as intended it prints the `set` record and stores the item. */
  method SetWithoutExpireFailsAsWritten<D>(encode: Json -> string, cid: string, data: D)
    returns (asWritten: Outcome<PhpError>, printedAsWritten: seq<string>, storedAsWritten: bool,
             printedIntended: seq<string>, storedIntended: bool)
    ensures asWritten == Fail(ClassNotFound(UnimportedCacheClass))
    ensures printedAsWritten == [] && !storedAsWritten
    ensures printedIntended == [TraceComment(encode, "set", cid, Some([]))] && storedIntended
  {
    var written := new DebugBackend<D>(encode);
    asWritten := written.SetAsWritten(cid, data, None, None);
    printedAsWritten := PrintedText(written.trace);
    storedAsWritten := cid in written.items;
    var intended := new DebugBackend<D>(encode);
    intended.Set(cid, data, None, None);
    assert intended.trace == OpTrace(encode, SetOp(cid, data, Permanent, []));
    printedIntended := PrintedText(intended.trace);
    storedIntended := cid in intended.items;
  }
}
