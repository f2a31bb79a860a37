/** `Drupal.CacheDebug` and `Drupal.behaviors.CacheDebug` of js/cache-debug.js: find the trace
    comments among an element's children, decode them, and write the distinct cache ids they
    name into the element's `data-cache-helper` attribute. */
module ClientScript {
  import opened Wrappers
  import opened Sequences
  import opened Json
  import opened JsString
  import opened JsObject

  /** `Drupal.CacheDebug.prefix`: the marker that opens every trace comment. */
  const Prefix: string := "CACHE_DEBUG:"

  /** The attribute `buildData` writes. */
  const HelperAttribute: string := "data-cache-helper"

  /** The separator at which `buildData` cuts a cache id: the start of its context part. */
  const ContextMarker: string := ":["

  /** A DOM child node: only the data of comments matters here. */
  datatype Node = Comment(data: string) | Element(children: seq<Node>) | Text(text: string)

  /** The exceptions the script can throw: JSON.parse on a malformed payload, and reading
      `cid.split` from a record without a string `cid`. */
  datatype JsError = SyntaxError | TypeError

  /** A DOM element: its child nodes, and the attributes the script writes. */
  class DomElement {
    var childNodes: seq<Node>
    var attributes: map<string, string>

    constructor (children: seq<Node>)
      ensures childNodes == children && attributes == map[]
    {
      childNodes := children;
      attributes := map[];
    }
  }

  // ---------------------------------------------------------------- getComments

  /** The trimmed data of the comment children, in child order. */
  function CommentsOf(children: seq<Node>): (comments: seq<string>)
    ensures |comments| <= |children|
  {
    if children == [] then []
    else
      var n := |children| - 1;
      CommentsOf(children[..n]) + (if children[n].Comment? then [Trim(children[n].data)] else [])
  }

  /** `getComments(elem)`: scans the direct children once, in order. */
  method GetComments(elem: DomElement) returns (comments: seq<string>)
    ensures comments == CommentsOf(elem.childNodes)
  {
    var children := elem.childNodes;
    comments := [];
    var i, len := 0, |children|;
    while i < len
      invariant 0 <= i <= len
      invariant comments == CommentsOf(children[..i])
    {
      assert children[..i + 1][..i] == children[..i];
      if children[i].Comment? {
        comments := comments + [Trim(children[i].data)];
      }
      i := i + 1;
    }
    assert children[..len] == children;
  }

  /** The positions of the comment children, in increasing order. */
  ghost function CommentPositions(children: seq<Node>): (ps: seq<nat>)
    ensures forall k :: 0 <= k < |ps| ==> ps[k] < |children| && children[ps[k]].Comment?
    ensures forall k, l :: 0 <= k < l < |ps| ==> ps[k] < ps[l]
    ensures forall i :: 0 <= i < |children| && children[i].Comment? ==> i in ps
  {
    if children == [] then []
    else
      var n := |children| - 1;
      var prev := children[..n];
      var ps := CommentPositions(prev);
      assert forall i :: 0 <= i < n ==> prev[i] == children[i];
      ps + (if children[n].Comment? then [n] else [])
  }

  /** `getComments` yields, for each comment child and for nothing else, its trimmed data, in
      child order: no more entries than there are children. */
  lemma {:induction false} CommentsOfPositions(children: seq<Node>)
    ensures var ps := CommentPositions(children);
            var cs := CommentsOf(children);
            && |cs| == |ps| <= |children|
            && forall k :: 0 <= k < |ps| ==> cs[k] == Trim(children[ps[k]].data)
  {
    if children != [] {
      var n := |children| - 1;
      var prev := children[..n];
      CommentsOfPositions(prev);
      var ps := CommentPositions(prev);
      var cs := CommentsOf(prev);
      var tp: seq<nat> := if children[n].Comment? then [n] else [];
      var tc := if children[n].Comment? then [Trim(children[n].data)] else [];
      var all := CommentPositions(children);
      var ca := CommentsOf(children);
      assert all == ps + tp;
      assert ca == cs + tc;
      forall k | 0 <= k < |all| ensures ca[k] == Trim(children[all[k]].data) {
        if k < |ps| {
          assert all[k] == ps[k] && ca[k] == cs[k];
          assert prev[ps[k]] == children[ps[k]];
        } else {
          assert all[k] == n && ca[k] == Trim(children[n].data);
        }
      }
      CountIncreasing(ps, n);
    }
  }

  /** A strictly increasing sequence of indices below `n` has at most `n` elements. */
  lemma {:induction false} CountIncreasing(ps: seq<nat>, n: nat)
    requires forall k :: 0 <= k < |ps| ==> ps[k] < n
    requires forall k, l :: 0 <= k < l < |ps| ==> ps[k] < ps[l]
    ensures |ps| <= n
  {
    if ps != [] {
      var m := |ps| - 1;
      CountIncreasing(ps[..m], ps[m]);
    }
  }

  lemma {:induction false} CommentsOfAppend(a: seq<Node>, b: seq<Node>)
    ensures CommentsOf(a + b) == CommentsOf(a) + CommentsOf(b)
    decreases |b|
  {
    if b == [] {
      assert a + b == a;
    } else {
      var n := |b| - 1;
      CommentsOfAppend(a, b[..n]);
      var ab := a + b;
      var t := if b[n].Comment? then [Trim(b[n].data)] else [];
      assert ab[..|ab| - 1] == a + b[..n] && ab[|ab| - 1] == b[n];
      assert CommentsOf(ab) == CommentsOf(a + b[..n]) + t;
      assert CommentsOf(b) == CommentsOf(b[..n]) + t;
      assert CommentsOf(a) + CommentsOf(b[..n]) + t == CommentsOf(a) + (CommentsOf(b[..n]) + t);
    }
  }

  /** A text or element child contributes nothing, whatever comments it holds itself: the
      scan does not descend. */
  lemma {:induction false} NonCommentChildIgnored(before: seq<Node>, child: Node, after: seq<Node>)
    requires !child.Comment?
    ensures CommentsOf(before + [child] + after) == CommentsOf(before + after)
  {
    CommentsOfAppend(before + [child], after);
    CommentsOfAppend(before, [child]);
    CommentsOfAppend(before, after);
    assert [child][..0] == [];
  }

  // ---------------------------------------------------------------- getData

  /** The text after the prefix of each comment that starts with the prefix, in order. */
  function Payloads(comments: seq<string>): (payloads: seq<string>)
    ensures |payloads| <= |comments|
  {
    if comments == [] then []
    else
      var n := |comments| - 1;
      Payloads(comments[..n]) + (if Prefix <= comments[n] then [comments[n][|Prefix|..]] else [])
  }

  /** What `getData` returns for an element with these children, or the exception it throws. */
  function DataOf(children: seq<Node>, parse: string -> Option<Json>): (r: Result<seq<Json>, JsError>)
    ensures r.Failure? ==> r.error == SyntaxError
    ensures r.Success? ==> |r.value| == |Payloads(CommentsOf(children))|
  {
    MapAll(Payloads(CommentsOf(children)), parse, SyntaxError)
  }

  /** `getData(el)`: decodes the trace comments in order; a payload JSON.parse rejects throws
      out of the whole call. */
  method GetData(el: DomElement, parse: string -> Option<Json>) returns (r: Result<seq<Json>, JsError>)
    ensures r == DataOf(el.childNodes, parse)
  {
    var comments := GetComments(el);
    var data: seq<Json> := [];
    var i := 0;
    while i < |comments|
      invariant 0 <= i <= |comments|
      invariant MapAll(Payloads(comments[..i]), parse, SyntaxError) == Success(data)
    {
      GetDataStep(comments, i, parse, data);
      IndexOfZero(comments[i], Prefix);
      if IndexOf(comments[i], Prefix) == 0 {
        var v := parse(comments[i][|Prefix|..]);
        if v.None? {
          GetDataAbort(comments, i, parse, data);
          return Failure(SyntaxError);
        }
        data := data + [v.value];
      }
      i := i + 1;
    }
    assert comments[..i] == comments;
    r := Success(data);
  }

  /** One pass of `getData`'s loop that goes on: an unprefixed comment changes nothing, a
      prefixed one adds its parsed payload. */
  lemma {:induction false} GetDataStep(comments: seq<string>, i: nat, parse: string -> Option<Json>, data: seq<Json>)
    requires i < |comments|
    requires MapAll(Payloads(comments[..i]), parse, SyntaxError) == Success(data)
    ensures !(Prefix <= comments[i]) ==> MapAll(Payloads(comments[..i + 1]), parse, SyntaxError) == Success(data)
    ensures Prefix <= comments[i] && parse(comments[i][|Prefix|..]).Some? ==>
              MapAll(Payloads(comments[..i + 1]), parse, SyntaxError) == Success(data + [parse(comments[i][|Prefix|..]).value])
  {
    var done := Payloads(comments[..i]);
    PayloadsStep(comments, i);
    if Prefix <= comments[i] {
      MapAllSnoc(done, comments[i][|Prefix|..], parse, SyntaxError);
    } else {
      assert done + [] == done;
    }
  }

  /** A prefixed comment whose payload JSON.parse rejects makes the whole `getData` call fail,
      whatever comments follow it. */
  lemma {:induction false} GetDataAbort(comments: seq<string>, i: nat, parse: string -> Option<Json>, data: seq<Json>)
    requires i < |comments|
    requires MapAll(Payloads(comments[..i]), parse, SyntaxError) == Success(data)
    requires Prefix <= comments[i] && parse(comments[i][|Prefix|..]).None?
    ensures MapAll(Payloads(comments), parse, SyntaxError) == Failure(SyntaxError)
  {
    var done := Payloads(comments[..i]);
    PayloadsStep(comments, i);
    MapAllSnoc(done, comments[i][|Prefix|..], parse, SyntaxError);
    PayloadsAppend(comments[..i + 1], comments[i + 1..]);
    assert comments[..i + 1] + comments[i + 1..] == comments;
    MapAllAbort(Payloads(comments[..i + 1]), Payloads(comments[i + 1..]), parse, SyntaxError);
  }

  /** One more comment: its payload, if it is prefixed, follows those before it. */
  lemma {:induction false} PayloadsStep(comments: seq<string>, i: nat)
    requires i < |comments|
    ensures Payloads(comments[..i + 1]) ==
            Payloads(comments[..i]) + (if Prefix <= comments[i] then [comments[i][|Prefix|..]] else [])
  {
    assert comments[..i + 1][..i] == comments[..i];
  }

  lemma {:induction false} PayloadsAppend(a: seq<string>, b: seq<string>)
    ensures Payloads(a + b) == Payloads(a) + Payloads(b)
    decreases |b|
  {
    if b == [] {
      assert a + b == a;
    } else {
      var n := |b| - 1;
      PayloadsAppend(a, b[..n]);
      var ab := a + b;
      var t := if Prefix <= b[n] then [b[n][|Prefix|..]] else [];
      assert ab[..|ab| - 1] == a + b[..n] && ab[|ab| - 1] == b[n];
      assert Payloads(ab) == Payloads(a + b[..n]) + t;
      assert Payloads(b) == Payloads(b[..n]) + t;
      assert Payloads(a) + Payloads(b[..n]) + t == Payloads(a) + (Payloads(b[..n]) + t);
    }
  }

  /** A comment that does not start with the prefix is never decoded, whatever it contains. */
  lemma {:induction false} UnprefixedCommentIgnored(before: seq<string>, comment: string, after: seq<string>)
    requires !(Prefix <= comment)
    ensures Payloads(before + [comment] + after) == Payloads(before + after)
  {
    PayloadsAppend(before + [comment], after);
    PayloadsAppend(before, [comment]);
    PayloadsAppend(before, after);
    assert [comment][..0] == [];
  }

  /** A comment that starts with the prefix contributes, in its place, the text after the
      12-character prefix. */
  lemma {:induction false} PrefixedCommentDecoded(before: seq<string>, comment: string, after: seq<string>)
    requires Prefix <= comment
    ensures |Prefix| == 12
    ensures Payloads(before + [comment] + after) == Payloads(before) + [comment[12..]] + Payloads(after)
  {
    PayloadsAppend(before + [comment], after);
    PayloadsAppend(before, [comment]);
    assert [comment][..0] == [];
  }

  /** `getData` returns one record per trace comment, in order, each parsed from that comment's
      payload; if any payload fails to parse, the whole call throws. */
  lemma {:induction false} GetDataRecords(children: seq<Node>, parse: string -> Option<Json>, ps: seq<string>)
    requires ps == Payloads(CommentsOf(children))
    ensures DataOf(children, parse).Success? <==> forall k :: 0 <= k < |ps| ==> parse(ps[k]).Some?
    ensures DataOf(children, parse).Failure? ==> DataOf(children, parse).error == SyntaxError
    ensures DataOf(children, parse).Success? ==>
              && |DataOf(children, parse).value| == |ps|
              && forall k :: 0 <= k < |ps| ==> DataOf(children, parse).value[k] == parse(ps[k]).value
  {
    MapAllSpec(ps, parse, SyntaxError);
  }

  lemma {:induction false} PayloadsEmpty(comments: seq<string>)
    ensures Payloads(comments) == [] <==> forall i :: 0 <= i < |comments| ==> !(Prefix <= comments[i])
  {
    if comments != [] {
      var n := |comments| - 1;
      PayloadsEmpty(comments[..n]);
      assert forall i :: 0 <= i < n ==> comments[..n][i] == comments[i];
    }
  }

  /** `getData` finds nothing exactly when no comment child, once trimmed, starts with the
      prefix; then `attach` leaves the element alone. */
  lemma {:induction false} NoRecordsIffNoTraceComment(children: seq<Node>, parse: string -> Option<Json>)
    ensures DataOf(children, parse) == Success([]) <==>
            forall i :: 0 <= i < |children| && children[i].Comment? ==> !(Prefix <= Trim(children[i].data))
  {
    var cs := CommentsOf(children);
    var ps := Payloads(cs);
    CommentsOfPositions(children);
    PayloadsEmpty(cs);
    MapAllSpec(ps, parse, SyntaxError);
    var pos := CommentPositions(children);
    if forall i :: 0 <= i < |children| && children[i].Comment? ==> !(Prefix <= Trim(children[i].data)) {
      forall k | 0 <= k < |cs| ensures !(Prefix <= cs[k]) {
        assert cs[k] == Trim(children[pos[k]].data);
      }
    }
    if forall k :: 0 <= k < |cs| ==> !(Prefix <= cs[k]) {
      forall i | 0 <= i < |children| && children[i].Comment? ensures !(Prefix <= Trim(children[i].data)) {
        var k :| 0 <= k < |pos| && pos[k] == i;
        assert cs[k] == Trim(children[i].data);
      }
    }
  }

  // ---------------------------------------------------------------- buildData

  /** `value.cid` when it is a string; None where `value.cid.split` would throw. */
  function CidOf(v: Json): (cid: Option<string>)
    ensures cid.Some? <==> Member(v, "cid").Some? && Member(v, "cid").value.JString?
    ensures cid.Some? ==> Member(v, "cid") == Some(JString(cid.value))
  {
    match Member(v, "cid")
    case Some(JString(cid)) => Some(cid)
    case _ => None
  }

  /** `cid.split(':[', 2)[0]`: the longest prefix of the cache id in which no `:[` starts. */
  function PureCid(cid: string): (pure: string)
    ensures pure <= cid
    ensures forall i :: 0 <= i < |pure| ==> !OccursAt(cid, i, ContextMarker)
    ensures pure == cid || OccursAt(cid, |pure|, ContextMarker)
  {
    var pure := Before(cid, [ContextMarker]);
    assert forall i: nat :: OccursAt(cid, i, ContextMarker) ==> AnyOccursAt(cid, i, [ContextMarker]) by {
      forall i: nat | OccursAt(cid, i, ContextMarker) ensures AnyOccursAt(cid, i, [ContextMarker]) {
        assert OccursAt(cid, i, [ContextMarker][0]);
      }
    }
    pure
  }

  /** The pure cache id of one record, or None where reading it throws. */
  function PureCidOf(v: Json): Option<string>
  {
    match CidOf(v)
    case None => None
    case Some(cid) => Some(PureCid(cid))
  }

  /** The own keys of `buildData`'s `keys` object after the `forEach`, or the exception. */
  function KeysOf(data: seq<Json>): (r: Result<seq<string>, JsError>)
    ensures r.Success? <==> forall i :: 0 <= i < |data| ==> CidOf(data[i]).Some?
    ensures r.Failure? ==> r.error == TypeError
  {
    MapAllSpec(data, PureCidOf, TypeError);
    match MapAll(data, PureCidOf, TypeError)
    case Failure(e) => Failure(e)
    case Success(pure) => Success(OwnKeys(pure))
  }

  /** The `forEach` of `buildData`: records each pure cache id as a key of a plain object. */
  method CollectKeys(data: seq<Json>) returns (r: Result<seq<string>, JsError>)
    ensures r == KeysOf(data)
  {
    var keys: seq<string> := [];
    ghost var pure: seq<string> := [];
    for i := 0 to |data|
      invariant MapAll(data[..i], PureCidOf, TypeError) == Success(pure)
      invariant keys == OwnKeys(pure)
    {
      CollectKeysStep(data, i, pure);
      var cid := CidOf(data[i]);
      if cid.None? {
        return Failure(TypeError);
      }
      var p := PureCid(cid.value);
      keys := AssignKey(keys, p);
      pure := pure + [p];
    }
    assert data[..|data|] == data;
    r := Success(keys);
  }

  /** One pass of the `forEach`: a record with a string `cid` adds its pure id, in order; one
      without makes the whole call throw. */
  lemma {:induction false} CollectKeysStep(data: seq<Json>, i: nat, pure: seq<string>)
    requires i < |data|
    requires MapAll(data[..i], PureCidOf, TypeError) == Success(pure)
    ensures CidOf(data[i]).None? ==> KeysOf(data) == Failure(TypeError)
    ensures CidOf(data[i]).Some? ==>
              && MapAll(data[..i + 1], PureCidOf, TypeError) == Success(pure + [PureCid(CidOf(data[i]).value)])
              && OwnKeys(pure + [PureCid(CidOf(data[i]).value)]) == AssignKey(OwnKeys(pure), PureCid(CidOf(data[i]).value))
  {
    assert data[..i + 1] == data[..i] + [data[i]];
    MapAllSnoc(data[..i], data[i], PureCidOf, TypeError);
    if CidOf(data[i]).None? {
      assert data[..i + 1] + data[i + 1..] == data;
      MapAllAbort(data[..i + 1], data[i + 1..], PureCidOf, TypeError);
    } else {
      var q := pure + [PureCid(CidOf(data[i]).value)];
      assert q[..|q| - 1] == pure;
    }
  }

  /** The `data-cache-helper` value `buildData` writes for an element with these children, or
      the exception it throws. */
  function HelperValue(children: seq<Node>, parse: string -> Option<Json>): (r: Result<string, JsError>)
    ensures DataOf(children, parse).Failure? ==> r == Failure(SyntaxError)
    ensures DataOf(children, parse).Success? ==>
              (r.Success? <==> forall i :: 0 <= i < |DataOf(children, parse).value| ==> CidOf(DataOf(children, parse).value[i]).Some?)
    ensures r.Failure? && DataOf(children, parse).Success? ==> r.error == TypeError
  {
    match DataOf(children, parse)
    case Failure(e) => Failure(e)
    case Success(data) =>
      match KeysOf(data)
      case Failure(e) => Failure(e)
      case Success(keys) => Success(Join(ObjectKeys(keys), '\n'))
  }

  /** `buildData(el)`: writes the listing of pure cache ids, or throws before writing anything. */
  method BuildData(el: DomElement, parse: string -> Option<Json>) returns (r: Outcome<JsError>)
    modifies el
    ensures el.childNodes == old(el.childNodes)
    ensures match HelperValue(old(el.childNodes), parse)
            case Success(v) => r == Pass && el.attributes == old(el.attributes)[HelperAttribute := v]
            case Failure(e) => r == Fail(e) && el.attributes == old(el.attributes)
  {
    var data := GetData(el, parse);
    if data.Failure? {
      return Fail(data.error);
    }
    var keys := CollectKeys(data.value);
    if keys.Failure? {
      return Fail(keys.error);
    }
    el.attributes := el.attributes[HelperAttribute := Join(ObjectKeys(keys.value), '\n')];
    r := Pass;
  }

  /** The body `attach` runs for each element: `buildData` only when `getData` finds records. */
  method AttachTo(el: DomElement, parse: string -> Option<Json>) returns (r: Outcome<JsError>)
    modifies el
    ensures el.childNodes == old(el.childNodes)
    ensures DataOf(old(el.childNodes), parse).Failure? ==>
              r == Fail(SyntaxError) && el.attributes == old(el.attributes)
    ensures DataOf(old(el.childNodes), parse) == Success([]) ==>
              r == Pass && el.attributes == old(el.attributes)
    ensures DataOf(old(el.childNodes), parse).Success? && DataOf(old(el.childNodes), parse).value != [] ==>
              match HelperValue(old(el.childNodes), parse)
              case Success(v) => r == Pass && el.attributes == old(el.attributes)[HelperAttribute := v]
              case Failure(e) => r == Fail(e) && el.attributes == old(el.attributes)
  {
    GetDataRecords(el.childNodes, parse, Payloads(CommentsOf(el.childNodes)));
    var data := GetData(el, parse);
    if data.Failure? {
      return Fail(data.error);
    }
    if |data.value| > 0 {
      r := BuildData(el, parse);
    } else {
      r := Pass;
    }
  }

  /** `buildData` reads one pure cache id per record, in order, and the own keys of `keys`
      are those ids as assigned one after the other. */
  lemma {:induction false} HelperRecords(data: seq<Json>, pure: seq<string>)
    requires MapAll(data, PureCidOf, TypeError) == Success(pure)
    ensures |pure| == |data|
    ensures forall k :: 0 <= k < |data| ==> CidOf(data[k]).Some? && pure[k] == PureCid(CidOf(data[k]).value)
    ensures KeysOf(data) == Success(OwnKeys(pure))
  {
    MapAllSpec(data, PureCidOf, TypeError);
  }

  /** The `data-cache-helper` listing of pure cache ids: each distinct one exactly once (except
      `__proto__`, which never becomes a key); array-index ids first in ascending order, then
      the others in the order of their first record. When no id holds a line break, splitting
      the attribute on line breaks gives the listing back. */
  lemma {:induction false} HelperListing(pure: seq<string>)
    ensures var listed := ObjectKeys(OwnKeys(pure));
            var n := |KeysWhere(OwnKeys(pure), true)|;
            && (forall x :: multiset(listed)[x] == if x in pure && x != ProtoKey then 1 else 0)
            && n <= |listed|
            && (forall i :: 0 <= i < n ==> IsArrayIndex(listed[i]))
            && Ascending(listed[..n])
            && (forall i :: n <= i < |listed| ==> !IsArrayIndex(listed[i]))
            && InFirstSeenOrder(listed[n..], pure)
            && ((listed != [] && forall k :: 0 <= k < |pure| ==> '\n' !in pure[k]) ==>
                  Split(Join(listed, '\n'), '\n') == listed)
  {
    ListedKeys(pure);
    var listed := ObjectKeys(OwnKeys(pure));
    if listed != [] && forall k :: 0 <= k < |pure| ==> '\n' !in pure[k] {
      forall i | 0 <= i < |listed| ensures '\n' !in listed[i] {
        assert multiset(listed)[listed[i]] > 0;
        var k := FirstIndex(pure, listed[i]);
      }
      SplitJoin(listed, '\n');
    }
  }

  /** With no array-index id among them, the listing is the distinct pure cache ids in the order
      of their first record. */
  lemma {:induction false} HelperListingWithoutIndices(pure: seq<string>)
    requires forall k :: 0 <= k < |pure| ==> !IsArrayIndex(pure[k])
    ensures ObjectKeys(OwnKeys(pure)) == OwnKeys(pure)
  {
    OwnKeysOrder(pure);
    var own := OwnKeys(pure);
    forall i | 0 <= i < |own| ensures !IsArrayIndex(own[i]) {
      var k := FirstIndex(pure, own[i]);
    }
    ObjectKeysWithoutIndices(own);
  }
}
