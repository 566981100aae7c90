/** HTML as the result views write it: a sequence of start tags, end tags
    and character data, serialised by plain concatenation. The views of the
    result renderer and of the notebook controller build their markup from
    these tokens, so the string they produce is exactly the one the
    templates of src/resultRenderer.ts and src/controller.ts spell out. */
module Markup {
  import opened Text

  /** `attrs` is everything between the tag name and `>`, leading space
      included. */
  datatype Token =
    | StartTag(name: string, attrs: string)
    | EndTag(name: string)
    | Chars(text: string)

  function Render(t: Token): string
  {
    match t
    case StartTag(name, attrs) => "<" + name + attrs + ">"
    case EndTag(name) => "</" + name + ">"
    case Chars(text) => text
  }

  function Serialize(ts: seq<Token>): string
    decreases |ts|
  {
    if |ts| == 0 then "" else Render(ts[0]) + Serialize(ts[1..])
  }

  /** An element with its content between its start and end tags. */
  function Element(name: string, attrs: string, content: seq<Token>): (ts: seq<Token>)
    ensures |ts| == |content| + 2
  {
    [StartTag(name, attrs)] + content + [EndTag(name)]
  }

  /** The concatenation of several token sequences. */
  function Flatten(parts: seq<seq<Token>>): seq<Token>
    decreases |parts|
  {
    if |parts| == 0 then [] else parts[0] + Flatten(parts[1..])
  }

  /** `parts.join(sep)` on markup: the parts with `sep` between consecutive
      ones. */
  function JoinTokens(parts: seq<seq<Token>>, sep: seq<Token>): seq<Token>
    decreases |parts|
  {
    if |parts| == 0 then []
    else if |parts| == 1 then parts[0]
    else parts[0] + sep + JoinTokens(parts[1..], sep)
  }

  function SerializeEach(parts: seq<seq<Token>>): (r: seq<string>)
    ensures |r| == |parts|
  {
    seq(|parts|, i requires 0 <= i < |parts| => Serialize(parts[i]))
  }

  /** Joining markup and then serialising it is joining the serialised
      parts with the serialised separator. */
  lemma {:induction false} SerializeJoinTokens(parts: seq<seq<Token>>, sep: seq<Token>)
    ensures Serialize(JoinTokens(parts, sep)) == Join(SerializeEach(parts), Serialize(sep))
    decreases |parts|
  {
    if |parts| > 1 {
      SerializeJoinTokens(parts[1..], sep);
      SerializeConcat(parts[0], sep + JoinTokens(parts[1..], sep));
      SerializeConcat(sep, JoinTokens(parts[1..], sep));
      assert parts[0] + sep + JoinTokens(parts[1..], sep) == parts[0] + (sep + JoinTokens(parts[1..], sep));
      assert SerializeEach(parts[1..]) == SerializeEach(parts)[1..];
    }
  }

  /** A separator without tags adds no tags: the join has the tags of the
      parts, and it is clean when the parts and the separator are. */
  lemma {:induction false} JoinTokensTags(parts: seq<seq<Token>>, sep: seq<Token>)
    requires TagCount(sep) == 0 && AllClean(sep)
    requires forall i :: 0 <= i < |parts| ==> AllClean(parts[i])
    ensures TagCount(JoinTokens(parts, sep)) == TagCount(Flatten(parts))
    ensures AllClean(JoinTokens(parts, sep))
    decreases |parts|
  {
    if |parts| == 1 {
      assert Flatten(parts[1..]) == [];
      assert Flatten(parts) == parts[0] + [];
      assert parts[0] + [] == parts[0];
    } else if |parts| > 1 {
      var rest := JoinTokens(parts[1..], sep);
      JoinTokensTags(parts[1..], sep);
      TagCountConcat(parts[0] + sep, rest);
      TagCountConcat(parts[0], sep);
      TagCountConcat(parts[0], Flatten(parts[1..]));
      var j := JoinTokens(parts, sep);
      forall i | 0 <= i < |j| ensures Clean(j[i]) {
        if i < |parts[0]| {
          assert j[i] == parts[0][i];
        } else if i < |parts[0]| + |sep| {
          assert j[i] == sep[i - |parts[0]|];
        } else {
          assert j[i] == rest[i - |parts[0]| - |sep|];
        }
      }
    }
  }

  predicate IsTag(t: Token) { !t.Chars? }

  /** How many tags a token sequence holds. */
  function TagCount(ts: seq<Token>): nat
    decreases |ts|
  {
    if |ts| == 0 then 0 else (if IsTag(ts[0]) then 1 else 0) + TagCount(ts[1..])
  }

  /** No `<` inside a tag's name or attributes or inside character data: the
      only `<` a token writes is the one that opens a tag. */
  predicate Clean(t: Token)
  {
    match t
    case StartTag(name, attrs) => '<' !in name && '<' !in attrs
    case EndTag(name) => '<' !in name
    case Chars(text) => '<' !in text
  }

  predicate AllClean(ts: seq<Token>)
  {
    forall i :: 0 <= i < |ts| ==> Clean(ts[i])
  }

  lemma {:induction false} SerializeConcat(a: seq<Token>, b: seq<Token>)
    ensures Serialize(a + b) == Serialize(a) + Serialize(b)
    decreases |a|
  {
    if |a| > 0 {
      assert (a + b)[1..] == a[1..] + b;
      SerializeConcat(a[1..], b);
    } else {
      assert a + b == b;
    }
  }

  lemma {:induction false} TagCountConcat(a: seq<Token>, b: seq<Token>)
    ensures TagCount(a + b) == TagCount(a) + TagCount(b)
    decreases |a|
  {
    if |a| > 0 {
      assert (a + b)[1..] == a[1..] + b;
      TagCountConcat(a[1..], b);
    } else {
      assert a + b == b;
    }
  }

  lemma ElementTags(name: string, attrs: string, content: seq<Token>)
    ensures TagCount(Element(name, attrs, content)) == TagCount(content) + 2
    ensures AllClean(Element(name, attrs, content)) <==>
      '<' !in name && '<' !in attrs && AllClean(content)
  {
    TagCountConcat([StartTag(name, attrs)], content);
    TagCountConcat([StartTag(name, attrs)] + content, [EndTag(name)]);
    var ts := Element(name, attrs, content);
    if AllClean(ts) {
      assert Clean(ts[0]);
      forall i | 0 <= i < |content| ensures Clean(content[i]) {
        assert ts[i + 1] == content[i];
      }
    }
  }

  /** When every part has `k` tags, the parts together have `k` per part. */
  lemma {:induction false} FlattenTags(parts: seq<seq<Token>>, k: nat)
    requires forall i :: 0 <= i < |parts| ==> TagCount(parts[i]) == k
    ensures TagCount(Flatten(parts)) == k * |parts|
    decreases |parts|
  {
    if |parts| > 0 {
      FlattenTags(parts[1..], k);
      TagCountConcat(parts[0], Flatten(parts[1..]));
      assert k * |parts| == k + k * |parts[1..]|;
    }
  }

  lemma {:induction false} FlattenClean(parts: seq<seq<Token>>)
    requires forall i :: 0 <= i < |parts| ==> AllClean(parts[i])
    ensures AllClean(Flatten(parts))
    decreases |parts|
  {
    if |parts| > 0 {
      FlattenClean(parts[1..]);
      var f := Flatten(parts);
      forall i | 0 <= i < |f| ensures Clean(f[i]) {
        if i >= |parts[0]| {
          assert f[i] == Flatten(parts[1..])[i - |parts[0]|];
        }
      }
    }
  }

  lemma RenderAngles(t: Token)
    requires Clean(t)
    ensures Count(Render(t), '<') == if IsTag(t) then 1 else 0
  {
    match t
    case StartTag(name, attrs) =>
      CountAbsent(name, '<');
      CountAbsent(attrs, '<');
      CountConcat("<", name, '<');
      CountConcat("<" + name, attrs, '<');
      CountConcat("<" + name + attrs, ">", '<');
    case EndTag(name) =>
      CountConcat("</", name, '<');
      CountAbsent(name, '<');
      CountConcat("</" + name, ">", '<');
    case Chars(text) =>
      CountAbsent(text, '<');
  }

  /** Markup made of clean tokens contains exactly one `<` per tag: no
      character data and no attribute value can open or close an element. */
  lemma {:induction false} SerializeAngles(ts: seq<Token>)
    requires AllClean(ts)
    ensures Count(Serialize(ts), '<') == TagCount(ts)
    decreases |ts|
  {
    if |ts| > 0 {
      RenderAngles(ts[0]);
      SerializeAngles(ts[1..]);
      CountConcat(Render(ts[0]), Serialize(ts[1..]), '<');
    }
  }
}
