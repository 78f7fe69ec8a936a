/**
 JSON pointers (RFC 6901) and the "add" operation of JSON patches (section 4.1 of RFC 6902),
 as far as they concern the labels of an object.
 */
module JsonPatch {
  import opened Prelude

  /** The webhook's escaping of label keys: a single pass over the characters. */
  function Encode(s: string): (r: string)
  {
    if s == [] then []
    else (if s[0] == '~' then "~0" else if s[0] == '/' then "~1" else [s[0]]) + Encode(s[1..])
  }

  /** Replaces every "~" that is followed by `digit`, scanning from the left. */
  function Unescape(s: string, digit: char, c: char): (r: string)
  {
    if s == [] then []
    else if |s| >= 2 && s[0] == '~' && s[1] == digit then [c] + Unescape(s[2..], digit, c)
    else [s[0]] + Unescape(s[1..], digit, c)
  }

  /** Section 4 of RFC 6901: first "~1" to "/", then "~0" to "~". */
  function Decode(s: string): (r: string)
  {
    Unescape(Unescape(s, '1', '/'), '0', '~')
  }

  /** What is left of the escaping after the first pass of decoding. */
  function EncodeTilde(s: string): (r: string)
  {
    if s == [] then [] else (if s[0] == '~' then "~0" else [s[0]]) + EncodeTilde(s[1..])
  }

  lemma UnescapeOther(c: char, rest: string, digit: char, with: char)
    requires c != '~'
    ensures Unescape([c] + rest, digit, with) == [c] + Unescape(rest, digit, with)
  {
  }

  lemma UnescapePair(d: char, rest: string, digit: char, with: char)
    requires d != '~'
    ensures Unescape(['~', d] + rest, digit, with)
         == (if d == digit then [with] else ['~', d]) + Unescape(rest, digit, with)
  {
  }

  lemma {:induction false} FirstPass(s: string)
    ensures Unescape(Encode(s), '1', '/') == EncodeTilde(s)
  {
    if s != [] {
      FirstPass(s[1..]);
      var rest := Encode(s[1..]);
      if s[0] == '~' {
        UnescapePair('0', rest, '1', '/');
      } else if s[0] == '/' {
        UnescapePair('1', rest, '1', '/');
      } else {
        UnescapeOther(s[0], rest, '1', '/');
      }
    }
  }

  lemma {:induction false} SecondPass(s: string)
    ensures Unescape(EncodeTilde(s), '0', '~') == s
  {
    if s != [] {
      SecondPass(s[1..]);
      var rest := EncodeTilde(s[1..]);
      if s[0] == '~' {
        UnescapePair('0', rest, '0', '~');
      } else {
        UnescapeOther(s[0], rest, '0', '~');
      }
      assert s == [s[0]] + s[1..];
    }
  }

  /** The escaping is undone by the decoding of section 4 of RFC 6901. */
  lemma DecodeEncode(s: string)
    ensures Decode(Encode(s)) == s
  {
    FirstPass(s);
    SecondPass(s);
  }

  /** Escaped text is a single reference token. */
  lemma {:induction false} EncodeSlashFree(s: string)
    ensures '/' !in Encode(s)
  {
    if s != [] {
      EncodeSlashFree(s[1..]);
    }
  }

  // ------------------------------------------------------------------ pointers

  /** The pieces between slashes. */
  function Split(s: string): (r: seq<string>)
    ensures |r| >= 1
  {
    if s == [] then [""]
    else if s[0] == '/' then [""] + Split(s[1..])
    else var rest := Split(s[1..]); [[s[0]] + rest[0]] + rest[1..]
  }

  function DecodeAll(tokens: seq<string>): (r: seq<string>)
  {
    seq(|tokens|, i requires 0 <= i < |tokens| => Decode(tokens[i]))
  }

  /** The reference tokens of a pointer; a non-empty pointer must start with a slash. */
  function PointerTokens(path: string): (r: Option<seq<string>>)
  {
    if path == "" then Some([])
    else if path[0] != '/' then None
    else Some(DecodeAll(Split(path[1..])))
  }

  lemma {:induction false} SplitSlashFree(s: string)
    requires '/' !in s
    ensures Split(s) == [s]
  {
    if s != [] {
      SplitSlashFree(s[1..]);
      assert s == [s[0]] + s[1..];
    }
  }

  lemma {:induction false} SplitAt(a: string, rest: string)
    requires '/' !in a
    ensures Split(a + "/" + rest) == [a] + Split(rest)
  {
    var s := a + "/" + rest;
    if a == [] {
      assert s[0] == '/' && s[1..] == rest;
    } else {
      assert s[0] == a[0] && s[1..] == a[1..] + "/" + rest;
      SplitAt(a[1..], rest);
      assert Split(s) == [[a[0]] + a[1..]] + Split(rest);
      assert a == [a[0]] + a[1..];
    }
  }

  // ------------------------------------------------------------------ patches on labels

  datatype Value = Members(members: map<string, string>) | Text(text: string)

  datatype Add = Add(path: string, value: Value)

  /** The labels of an object; None if the member "labels" is absent. */
  type Labels = Option<map<string, string>>

  /**
   Adding to "/metadata/labels" sets the member; adding below it needs the member to exist and
   sets or replaces one label. Other targets are outside of this model and yield None.
   */
  function ApplyAdd(labels: Labels, op: Add): (r: Option<Labels>)
  {
    match PointerTokens(op.path)
    case None => None
    case Some(tokens) =>
      if tokens == ["metadata", "labels"] && op.value.Members? then Some(Some(op.value.members))
      else if |tokens| == 3 && tokens[0] == "metadata" && tokens[1] == "labels" && op.value.Text? && labels.Some? then
        Some(Some(labels.value[tokens[2] := op.value.text]))
      else None
  }

  function ApplyPatch(labels: Labels, ops: seq<Add>): (r: Option<Labels>)
    decreases ops
  {
    if ops == [] then Some(labels)
    else match ApplyAdd(labels, ops[0])
      case None => None
      case Some(l) => ApplyPatch(l, ops[1..])
  }

  const LABELS_PATH: string := "/" + "metadata" + "/" + "labels"

  /** The operations of the webhook: make sure that there are labels, then add one. */
  function SetLabelOps(labels: Labels, key: string, value: string): (ops: seq<Add>)
  {
    (if labels.None? then [Add(LABELS_PATH, Members(map[]))] else [])
    + [Add(LABELS_PATH + "/" + Encode(key), Text(value))]
  }

  lemma DecodePlain(s: string)
    requires '~' !in s
    ensures Decode(s) == s
  {
    UnescapePlain(s, '1', '/');
    UnescapePlain(s, '0', '~');
  }

  lemma {:induction false} UnescapePlain(s: string, digit: char, c: char)
    requires '~' !in s
    ensures Unescape(s, digit, c) == s
  {
    if s != [] {
      UnescapePlain(s[1..], digit, c);
      assert s == [s[0]] + s[1..];
    }
  }

  lemma TwoTokens(path: string, a: string, b: string)
    requires '/' !in a && '/' !in b && '~' !in a && '~' !in b
    requires path == "/" + a + "/" + b
    ensures PointerTokens(path) == Some([a, b])
  {
    assert path[1..] == a + "/" + b;
    SplitAt(a, b);
    SplitSlashFree(b);
    DecodePlain(a);
    DecodePlain(b);
    assert Split(path[1..]) == [a, b];
    var tokens := DecodeAll([a, b]);
    assert tokens == [tokens[0], tokens[1]];
  }

  lemma ThreeTokens(prefix: string, a: string, b: string, e: string)
    requires '/' !in a && '/' !in b && '/' !in e && '~' !in a && '~' !in b
    requires prefix == "/" + a + "/" + b
    ensures PointerTokens(prefix + "/" + e) == Some([a, b, Decode(e)])
  {
    var path := prefix + "/" + e;
    assert path[1..] == a + "/" + (b + "/" + e);
    SplitAt(a, b + "/" + e);
    SplitAt(b, e);
    SplitSlashFree(e);
    DecodePlain(a);
    DecodePlain(b);
    assert Split(path[1..]) == [a, b, e];
    var tokens := DecodeAll([a, b, e]);
    assert tokens == [tokens[0], tokens[1], tokens[2]];
  }

  lemma AddLabels(labels: Labels)
    ensures ApplyAdd(labels, Add(LABELS_PATH, Members(map[]))) == Some(Some(map[]))
  {
    TwoTokens(LABELS_PATH, "metadata", "labels");
  }

  lemma AddLabel(m: map<string, string>, key: string, value: string)
    ensures ApplyAdd(Some(m), Add(LABELS_PATH + "/" + Encode(key), Text(value))) == Some(Some(m[key := value]))
  {
    EncodeSlashFree(key);
    DecodeEncode(key);
    ThreeTokens(LABELS_PATH, "metadata", "labels", Encode(key));
  }

  /** Without labels there is nothing that a label could be added to, so the webhook must add the labels first. */
  lemma ParentNeeded(key: string, value: string)
    ensures ApplyAdd(None, Add(LABELS_PATH + "/" + Encode(key), Text(value))) == None
  {
    EncodeSlashFree(key);
    DecodeEncode(key);
    ThreeTokens(LABELS_PATH, "metadata", "labels", Encode(key));
  }

  lemma ApplyOne(labels: Labels, op: Add)
    ensures ApplyPatch(labels, [op]) == ApplyAdd(labels, op)
  {
  }

  lemma ApplyTwo(labels: Labels, first: Add, second: Add)
    ensures ApplyPatch(labels, [first] + [second]) ==
            if ApplyAdd(labels, first).Some? then ApplyAdd(ApplyAdd(labels, first).value, second) else None
  {
    assert ([first] + [second])[0] == first && ([first] + [second])[1..] == [second];
    if ApplyAdd(labels, first).Some? {
      ApplyOne(ApplyAdd(labels, first).value, second);
    }
  }

  /** For every label map, or none, and every key, the operations set that label and change no other. */
  lemma SetLabelMeaning(labels: Labels, key: string, value: string)
    ensures ApplyPatch(labels, SetLabelOps(labels, key, value))
         == Some(Some((if labels.Some? then labels.value else map[])[key := value]))
  {
    var last := Add(LABELS_PATH + "/" + Encode(key), Text(value));
    if labels.None? {
      AddLabels(labels);
      AddLabel(map[], key, value);
      ApplyTwo(labels, Add(LABELS_PATH, Members(map[])), last);
    } else {
      AddLabel(labels.value, key, value);
      ApplyOne(labels, last);
      assert [] + [last] == [last];
    }
  }
}
