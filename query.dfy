/** `key=value` pairs joined by `&`, as the pass-times URL carries them, and
    the reading of such a query back into its pairs. */
module Query {
  import opened Text

  datatype Param = Param(key: string, value: string)

  function EncodeParam(p: Param): string {
    p.key + "=" + p.value
  }

  function EncodeQuery(params: seq<Param>): string
    requires |params| >= 1
    decreases |params|
  {
    if |params| == 1 then EncodeParam(params[0])
    else EncodeParam(params[0]) + "&" + EncodeQuery(params[1..])
  }

  /** A field reads as the text before its first `=` and the text after it. */
  function DecodeParam(field: string): Param {
    var n := FieldLength(field, '=');
    Param(field[..n], if n < |field| then field[n + 1..] else "")
  }

  function DecodeFields(fields: seq<string>): (params: seq<Param>)
    ensures |params| == |fields|
    decreases |fields|
  {
    if fields == [] then [] else [DecodeParam(fields[0])] + DecodeFields(fields[1..])
  }

  function DecodeQuery(query: string): seq<Param> {
    DecodeFields(Split(query, '&'))
  }

  /** A pair that survives encoding: no `&` anywhere, no `=` in the key. */
  predicate Plain(p: Param) {
    '&' !in p.key && '=' !in p.key && '&' !in p.value
  }

  lemma DecodeEncodeParam(p: Param)
    requires Plain(p)
    ensures DecodeParam(EncodeParam(p)) == p
    ensures '&' !in EncodeParam(p)
  {
    var f := EncodeParam(p);
    FieldLengthIs(f, '=', |p.key|);
    assert f[..|p.key|] == p.key;
    assert f[|p.key| + 1..] == p.value;
  }

  lemma DecodeFieldsCons(field: string, fields: seq<string>)
    ensures DecodeFields([field] + fields) == [DecodeParam(field)] + DecodeFields(fields)
  {
    assert ([field] + fields)[1..] == fields;
  }

  /** Decoding the encoded query gives the pairs back, in order. */
  lemma {:induction false} DecodeEncode(params: seq<Param>)
    requires |params| >= 1
    requires forall i | 0 <= i < |params| :: Plain(params[i])
    ensures DecodeQuery(EncodeQuery(params)) == params
    decreases |params|
  {
    var f := EncodeParam(params[0]);
    DecodeEncodeParam(params[0]);
    if |params| == 1 {
      SplitField(f, '&');
      DecodeFieldsCons(f, []);
    } else {
      var tail := params[1..];
      var rest := EncodeQuery(tail);
      calc {
        DecodeQuery(EncodeQuery(params));
      ==
        DecodeFields(Split(f + "&" + rest, '&'));
      == { SplitCons(f, rest, '&'); }
        DecodeFields([f] + Split(rest, '&'));
      == { DecodeFieldsCons(f, Split(rest, '&')); }
        [DecodeParam(f)] + DecodeFields(Split(rest, '&'));
      == { DecodeEncode(tail); }
        [params[0]] + tail;
      }
      assert [params[0]] + tail == params;
    }
  }
}
