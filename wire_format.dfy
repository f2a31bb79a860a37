/** The format both halves share: a JSON record inside an HTML comment, after the marker
    `CACHE_DEBUG:`. What the backend prints is what the script recognises and decodes. */
module WireFormat {
  import opened Wrappers
  import opened Sequences
  import opened Json
  import opened JsString
  import opened JsObject
  import opened PhpBackend
  import opened ClientScript

  /** The character sequences that end a comment in the HTML tokenizer. */
  const CommentEnds: seq<string> := ["-->", "--!>"]

  /** The data of the comment node a browser builds from markup that opens with `<!--`: the
      text up to the first `-->` or `--!>`; None for markup that is not a comment. */
  function CommentData(markup: string): (data: Option<string>)
    ensures data.Some? <==> "<!--" <= markup
    ensures data.Some? ==> && data.value <= markup[4..]
                           && (forall j :: 0 <= j < |data.value| ==> !AnyOccursAt(markup[4..], j, CommentEnds))
                           && (data.value == markup[4..] || AnyOccursAt(markup[4..], |data.value|, CommentEnds))
  {
    if "<!--" <= markup then Some(Before(markup[4..], CommentEnds)) else None
  }

  /** No comment terminator starts anywhere in `json`. */
  predicate NoCommentEnd(json: string)
  {
    forall i :: 0 <= i < |json| ==> !AnyOccursAt(json, i, CommentEnds)
  }

  /** A JSON text that survives the trip through a comment: no terminator inside, and no white
      space at its end for `trim` to take. */
  predicate SafeJson(json: string)
  {
    NoCommentEnd(json) && (json == [] || !IsWhitespace(json[|json| - 1]))
  }

  lemma {:induction false} EndNotBefore(json: string, j: nat, k: nat)
    requires NoCommentEnd(json)
    requires j < 14 + |json| && k < |CommentEnds|
    ensures !OccursAt(" CACHE_DEBUG:" + json + " -->", j, CommentEnds[k])
  {
    var rest := " CACHE_DEBUG:" + json + " -->";
    var e := CommentEnds[k];
    var p := 13 + |json|;
    assert e[0] == '-' && ' ' !in e;
    if j < 13 {
      assert rest[j] == " CACHE_DEBUG:"[j];
      assert '-' !in " CACHE_DEBUG:";
      assert rest[j] != e[0];
    } else if j < p {
      if j + |e| <= p {
        assert rest[j..j + |e|] == json[j - 13..j - 13 + |e|];
        assert !AnyOccursAt(json, j - 13, CommentEnds);
        assert !OccursAt(json, j - 13, e);
      } else if j + |e| <= |rest| {
        assert rest[p] == ' ';
        assert rest[j..j + |e|][p - j] == rest[p];
        assert e[p - j] in e;
      }
    } else {
      assert rest[j] == ' ';
    }
  }

  /** The comment the backend prints for a JSON text with no terminator in it comes out of the
      browser with data " CACHE_DEBUG:" + json + " ". */
  lemma {:induction false} PrintedCommentData(json: string)
    requires NoCommentEnd(json)
    ensures CommentData(CommentMarkup(json)) == Some(" " + Prefix + json + " ")
  {
    var markup := CommentMarkup(json);
    var rest := " CACHE_DEBUG:" + json + " -->";
    assert "<!--" <= markup && markup[4..] == rest;
    var l := 14 + |json|;
    forall j | 0 <= j < l ensures !AnyOccursAt(rest, j, CommentEnds) {
      EndNotBefore(json, j, 0);
      EndNotBefore(json, j, 1);
    }
    var want := " " + Prefix + json + " ";
    assert rest == want + "-->";
    assert OccursAt(rest, l, CommentEnds[0]);
    BeforeFirst(rest, CommentEnds, l);
    assert rest[..l] == want;
  }

  /** That data, trimmed, starts with the script's prefix, and what follows the prefix is the
      JSON text again, provided the text does not end in white space. */
  lemma {:induction false} PrintedCommentRecognised(json: string)
    requires SafeJson(json)
    ensures CommentData(CommentMarkup(json)) == Some(" " + Prefix + json + " ")
    ensures Trim(" " + Prefix + json + " ") == Prefix + json
    ensures (Prefix + json)[|Prefix|..] == json
  {
    PrintedCommentData(json);
    var body := Prefix + json;
    assert " " + Prefix + json + " " == [' '] + body + [' '];
    TrimPadded([' '], body, [' ']);
  }

  /** A terminator inside the JSON text ends the comment early: the data the browser keeps
      stops inside the JSON text, so the script never sees the record the backend printed. */
  lemma {:induction false} CommentEndInJsonTruncates(json: string, i: nat)
    requires i < |json| && AnyOccursAt(json, i, CommentEnds)
    ensures CommentData(CommentMarkup(json)).Some?
    ensures |CommentData(CommentMarkup(json)).value| <= 13 + i
    ensures Trim(CommentData(CommentMarkup(json)).value) != Prefix + json
  {
    var markup := CommentMarkup(json);
    var rest := " CACHE_DEBUG:" + json + " -->";
    assert "<!--" <= markup && markup[4..] == rest;
    var k :| 0 <= k < |CommentEnds| && OccursAt(json, i, CommentEnds[k]);
    var e := CommentEnds[k];
    assert i + |e| <= |json| && json[i..i + |e|] == e;
    assert rest[13..13 + |json|] == json;
    assert rest[13 + i..13 + i + |e|] == rest[13..13 + |json|][i..i + |e|];
    assert OccursAt(rest, 13 + i, e);
    assert AnyOccursAt(rest, 13 + i, CommentEnds);
  }

  lemma {:induction false} CommentsOfComments(children: seq<Node>)
    requires forall i :: 0 <= i < |children| ==> children[i].Comment?
    ensures |CommentsOf(children)| == |children|
    ensures forall i :: 0 <= i < |children| ==> CommentsOf(children)[i] == Trim(children[i].data)
  {
    if children != [] {
      var n := |children| - 1;
      var front := children[..n];
      CommentsOfComments(front);
      var all := CommentsOf(children);
      assert all == CommentsOf(front) + [Trim(children[n].data)];
      forall i | 0 <= i < |children| ensures all[i] == Trim(children[i].data) {
        if i < n {
          assert front[i] == children[i];
        }
      }
    }
  }

  lemma {:induction false} PayloadsOfTraces(comments: seq<string>)
    requires forall i :: 0 <= i < |comments| ==> Prefix <= comments[i]
    ensures |Payloads(comments)| == |comments|
    ensures forall i :: 0 <= i < |comments| ==> Payloads(comments)[i] == comments[i][|Prefix|..]
  {
    if comments != [] {
      var n := |comments| - 1;
      var front := comments[..n];
      PayloadsOfTraces(front);
      assert Payloads(comments) == Payloads(front) + [comments[n][|Prefix|..]];
      forall i | 0 <= i < n ensures Payloads(comments)[i] == comments[i][|Prefix|..] {
        assert front[i] == comments[i];
      }
    }
  }

  /** The comment nodes a browser builds from printed markup. */
  function CommentNodes(printed: seq<string>): (nodes: seq<Node>)
    ensures |nodes| == |printed|
    ensures forall i :: 0 <= i < |printed| ==> (nodes[i].Comment? <==> "<!--" <= printed[i])
  {
    seq(|printed|, i requires 0 <= i < |printed| =>
      match CommentData(printed[i])
      case Some(d) => Comment(d)
      case None => Text(printed[i]))
  }

  /** The trimmed comments of the printed markup for a run of operations. */
  lemma {:induction false} PrintedComments<D>(encode: Json -> string, ops: seq<Op<D>>)
    requires forall i :: 0 <= i < |ops| ==> SafeJson(encode(OpRecord(ops[i])))
    ensures |CommentsOf(CommentNodes(PrintedText(TraceOf(encode, ops))))| == |ops|
    ensures forall i :: 0 <= i < |ops| ==>
      CommentsOf(CommentNodes(PrintedText(TraceOf(encode, ops))))[i] == Prefix + encode(OpRecord(ops[i]))
  {
    PrintedTextOfTrace(encode, ops);
    var printed := PrintedText(TraceOf(encode, ops));
    var children := CommentNodes(printed);
    forall i | 0 <= i < |ops|
      ensures children[i] == Comment(" " + Prefix + encode(OpRecord(ops[i])) + " ")
      ensures Trim(children[i].data) == Prefix + encode(OpRecord(ops[i]))
    {
      var json := encode(OpRecord(ops[i]));
      PrintedCommentRecognised(json);
      assert printed[i] == CommentMarkup(json);
      var t := Trim(" " + Prefix + json + " ");
      assert t == t[..|Prefix|] + t[|Prefix|..];
    }
    CommentsOfComments(children);
  }

  /** The payloads `getData` hands to the parser are the JSON texts the backend encoded. */
  lemma {:induction false} PrintedPayloads<D>(encode: Json -> string, ops: seq<Op<D>>)
    requires forall i :: 0 <= i < |ops| ==> SafeJson(encode(OpRecord(ops[i])))
    ensures |Payloads(CommentsOf(CommentNodes(PrintedText(TraceOf(encode, ops)))))| == |ops|
    ensures forall i :: 0 <= i < |ops| ==>
      Payloads(CommentsOf(CommentNodes(PrintedText(TraceOf(encode, ops)))))[i] == encode(OpRecord(ops[i]))
  {
    PrintedComments(encode, ops);
    var comments := CommentsOf(CommentNodes(PrintedText(TraceOf(encode, ops))));
    forall i | 0 <= i < |ops|
      ensures Prefix <= comments[i] && comments[i][|Prefix|..] == encode(OpRecord(ops[i]))
    {
    }
    PayloadsOfTraces(comments);
  }

  /** Each record names the operation's cache id under `cid`. */
  lemma {:induction false} RecordCid<D>(op: Op<D>)
    ensures CidOf(OpRecord(op)) == Some(op.cid)
  {
    var ms := OpRecord(op).members;
    assert Lookup(ms, "cid") == Lookup(ms[..2], "cid");
  }

  /** An element whose trace payloads are texts the serialiser wrote yields, from `getData`,
      the values it was given. */
  lemma {:induction false} DataOfEncoded(encode: Json -> string, parse: string -> Option<Json>, children: seq<Node>, values: seq<Json>)
    requires forall i :: 0 <= i < |values| ==> RoundTrips(encode, parse, values[i])
    requires |Payloads(CommentsOf(children))| == |values|
    requires forall i :: 0 <= i < |values| ==> Payloads(CommentsOf(children))[i] == encode(values[i])
    ensures DataOf(children, parse) == Success(values)
  {
    var payloads := Payloads(CommentsOf(children));
    MapAllSpec(payloads, parse, SyntaxError);
    var decoded := MapAll(payloads, parse, SyntaxError).value;
    assert decoded == values;
  }

  /** End to end: when the JSON texts are safe and the parser reads back what the serialiser
      writes, an element holding the comments the backend printed for a run of operations
      yields, from `getData`, exactly the records of those operations, in order. */
  lemma {:induction false} PrintedRecordsDecoded<D>(encode: Json -> string, parse: string -> Option<Json>, ops: seq<Op<D>>)
    requires forall i :: 0 <= i < |ops| ==> RoundTrips(encode, parse, OpRecord(ops[i]))
    requires forall i :: 0 <= i < |ops| ==> SafeJson(encode(OpRecord(ops[i])))
    ensures DataOf(CommentNodes(PrintedText(TraceOf(encode, ops))), parse)
            == Success(seq(|ops|, i requires 0 <= i < |ops| => OpRecord(ops[i])))
  {
    PrintedPayloads(encode, ops);
    var records := seq(|ops|, i requires 0 <= i < |ops| => OpRecord(ops[i]));
    DataOfEncoded(encode, parse, CommentNodes(PrintedText(TraceOf(encode, ops))), records);
  }

  /** `:[` does not start at `j` when the two characters there are not `:` and `[`. */
  lemma {:induction false} NoMarkerAt(s: string, j: nat)
    requires j + 1 < |s| && (s[j] != ':' || s[j + 1] != '[')
    ensures !OccursAt(s, j, ContextMarker)
  {
    assert s[j..j + 2][0] == s[j] && s[j..j + 2][1] == s[j + 1];
  }

  /** `split(':[', 2)[0]` of a cache id with a language context keeps the part before it. */
  lemma {:induction false} ContextCut()
    ensures PureCid("node:5:[lang]=en") == "node:5"
  {
    var cid := "node:5:[lang]=en";
    assert cid[..6] == "node:5" && cid[6] == ':' && cid[7] == '[';
    assert cid[6..8] == ContextMarker;
    assert OccursAt(cid, 6, ContextMarker);
    assert cid[0] == 'n' && cid[1] == 'o' && cid[2] == 'd' && cid[3] == 'e' && cid[4] == ':' && cid[5] == '5';
    NoMarkerAt(cid, 0);
    NoMarkerAt(cid, 1);
    NoMarkerAt(cid, 2);
    NoMarkerAt(cid, 3);
    NoMarkerAt(cid, 4);
    NoMarkerAt(cid, 5);
    var p := PureCid(cid);
    assert |p| == 6;
  }

  /** Two records with the same pure cache id give `keys` a single own key. */
  lemma {:induction false} SameKeyTwice(a: Json, b: Json, k: string)
    requires PureCidOf(a) == Some(k) && PureCidOf(b) == Some(k) && k != ProtoKey
    ensures KeysOf([a, b]) == Success([k])
  {
    MapAllPair(a, b, PureCidOf, TypeError);
    var pure := [k, k];
    assert pure[..1] == [k] && pure[..1][..0] == [];
    assert OwnKeys(pure) == [k];
  }

  /** The keys `buildData` collects from the records of a get and a set of that cache id. */
  lemma {:induction false} ExampleKeys<D>(data: D)
    ensures KeysOf([OpRecord<D>(GetOp("node:5:[lang]=en", false)),
                    OpRecord(SetOp("node:5:[lang]=en", data, Permanent, ["node:5"]))]) == Success(["node:5"])
  {
    var cid := "node:5:[lang]=en";
    RecordCid<D>(GetOp(cid, false));
    RecordCid(SetOp(cid, data, Permanent, ["node:5"]));
    ContextCut();
    SameKeyTwice(OpRecord<D>(GetOp(cid, false)), OpRecord(SetOp(cid, data, Permanent, ["node:5"])), "node:5");
  }

  /** A single key that is not an array index is listed as it is. */
  lemma {:induction false} ExampleListing()
    ensures Join(ObjectKeys(["node:5"]), '\n') == "node:5"
  {
    assert !IsArrayIndex("node:5") by {
      assert !('0' <= "node:5"[0] <= '9');
    }
    ObjectKeysWithoutIndices(["node:5"]);
  }

  /** The worked example: a get and a set of the same cache id with a language context,
      printed into one element, give the attribute the single line "node:5". */
  lemma {:induction false} GetThenSetExample<D>(encode: Json -> string, parse: string -> Option<Json>, data: D)
    requires RoundTrips(encode, parse, OpRecord<D>(GetOp("node:5:[lang]=en", false)))
    requires RoundTrips(encode, parse, OpRecord(SetOp("node:5:[lang]=en", data, Permanent, ["node:5"])))
    requires SafeJson(encode(OpRecord<D>(GetOp("node:5:[lang]=en", false))))
    requires SafeJson(encode(OpRecord(SetOp("node:5:[lang]=en", data, Permanent, ["node:5"]))))
    ensures var ops := [GetOp("node:5:[lang]=en", false), SetOp("node:5:[lang]=en", data, Permanent, ["node:5"])];
            HelperValue(CommentNodes(PrintedText(TraceOf(encode, ops))), parse) == Success("node:5")
  {
    var cid := "node:5:[lang]=en";
    var ops := [GetOp(cid, false), SetOp(cid, data, Permanent, ["node:5"])];
    PrintedRecordsDecoded(encode, parse, ops);
    var records := seq(|ops|, i requires 0 <= i < |ops| => OpRecord(ops[i]));
    assert records == [OpRecord(ops[0]), OpRecord(ops[1])];
    ExampleKeys(data);
    ExampleListing();
  }
}
