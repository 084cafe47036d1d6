/**
 The lexer of identifiers: it reads through the nested switches of keywords character by character and,
 whichever way it leaves them, consumes the longest run of identifier characters.
 */
module IdentifierLexer {
  import opened Keywords

  predicate IsWordChar(c: char) {
    'a' <= c <= 'z' || 'A' <= c <= 'Z' || '0' <= c <= '9' || c == '_'
  }

  const LOWER := "abcdefghijklmnopqrstuvwxyz"
  const UPPER := "ABCDEFGHIJKLMNOPQRSTUVWXYZ"
  const DIGITS := "0123456789"

  /** Identifiers are made of the letters, the digits and underscores, and of nothing else. */
  lemma WordCharsAre(c: char)
    ensures IsWordChar(c) <==> c in LOWER || c in UPPER || c in DIGITS || c == '_'
  {
    InRange(LOWER, 'a', c);
    InRange(UPPER, 'A', c);
    InRange(DIGITS, '0', c);
  }

  /** A string of characters in a row has just those from its first to its last. */
  lemma InRange(s: string, first: char, c: char)
    requires s != "" && forall k :: 0 <= k < |s| ==> s[k] as int == first as int + k
    ensures c in s <==> first <= c <= s[|s| - 1]
  {
    if first <= c <= s[|s| - 1] {
      assert s[c as int - first as int] == c;
    }
  }

  /** The identifier characters at the start of a text. */
  function Run(text: string): string {
    if text == "" || !IsWordChar(text[0]) then "" else [text[0]] + Run(text[1..])
  }

  /** A run is the longest prefix of identifier characters. */
  lemma {:induction false} RunIsLongest(text: string)
    ensures Run(text) <= text
    ensures forall k | 0 <= k < |Run(text)| :: IsWordChar(text[k])
    ensures |Run(text)| < |text| ==> !IsWordChar(text[|Run(text)|])
  {
    if text != "" && IsWordChar(text[0]) {
      RunIsLongest(text[1..]);
      forall k | 0 <= k < |Run(text)|
        ensures IsWordChar(text[k])
      {
        assert k > 0 ==> text[k] == text[1..][k - 1];
      }
    }
  }

  /** A character of a string that ends with a zero. */
  function At(s: CString, k: nat): char
    requires k <= |s|
  {
    if k == |s| then '\0' else s[k]
  }

  class CharacterReader {
    const text: string
    var position: nat

    constructor (text: string)
      ensures this.text == text && position == 0
    {
      this.text := text;
      position := 0;
    }

    predicate Valid()
      reads this
    {
      position <= |text|
    }

    function Rest(): string
      requires Valid()
      reads this
    {
      text[position..]
    }

    /** The next character, zero at the end. */
    method Peek() returns (c: char)
      requires Valid()
      ensures c == if Rest() == "" then '\0' else Rest()[0]
    {
      c := if position == |text| then '\0' else text[position];
    }

    method Consume()
      requires Valid() && Rest() != ""
      modifies this
      ensures Valid() && position == old(position) + 1 && Rest() == old(Rest()[1..])
    {
      position := position + 1;
    }
  }

  class Lexer {
    const reader: CharacterReader
    var saved: string

    constructor (reader: CharacterReader)
      ensures this.reader == reader && saved == ""
    {
      this.reader := reader;
      saved := "";
    }

    predicate Valid()
      reads this, reader
    {
      reader.Valid()
    }

    /** The identifier characters still to come. */
    function Pending(): string
      requires Valid()
      reads this, reader
    {
      Run(reader.Rest())
    }

    /** The whole word: what has been read of it and what is to come. */
    function Whole(): string
      requires Valid()
      reads this, reader
    {
      saved + Pending()
    }

    /** Where the word ends. */
    function End(): nat
      requires Valid()
      reads this, reader
    {
      reader.position + |Pending()|
    }

    /** Reads one character of the word; at its end the result is zero and nothing is consumed. */
    method Get() returns (c: char)
      requires Valid()
      modifies this, reader
      ensures Valid() && Whole() == old(Whole()) && End() == old(End())
      ensures old(Pending()) == "" ==> c == '\0' && saved == old(saved) && Pending() == ""
      ensures old(Pending()) != "" ==>
        c == old(Pending()[0]) && c != '\0' && saved == old(saved) + [c] && Pending() == old(Pending()[1..])
    {
      c := reader.Peek();
      if !IsWordChar(c) {
        return '\0';
      }
      saved := saved + [c];
      reader.Consume();
    }

    /** Reads on while the word agrees with the prefix, and tells whether it has all of it. */
    method LexCommonPrefix(prefix: CString) returns (all: bool)
      requires Valid() && saved <= prefix
      modifies this, reader
      ensures Valid() && Whole() == old(Whole()) && End() == old(End())
      ensures |Pending()| <= old(|Pending()|)
      ensures all <==> prefix <= Whole()
      ensures all ==> saved == prefix
    {
      var position := |saved|;
      while true
        invariant Valid() && Whole() == old(Whole()) && End() == old(End())
        invariant position == |saved| && saved <= prefix && |Pending()| <= old(|Pending()|)
        decreases |prefix| - position
      {
        if At(prefix, position) == '\0' {
          assert position == |prefix|;
          return true;
        }
        var value := Get();
        if value != At(prefix, position) {
          assert value != '\0' ==> Whole()[position] == value;
          return false;
        }
        position := position + 1;
      }
    }

    /** Only one keyword is possible: the word is compared with it as it is read. */
    method LexPossibleKeyword(name: CString, kind: Kind) returns (token: Token)
      requires Valid() && saved <= name
      modifies this, reader
      ensures Valid() && Whole() == old(Whole()) && End() == old(End()) && Pending() == ""
      ensures token == if Whole() == name then Basic(kind) else Name(Whole())
    {
      var position := |saved|;
      while true
        invariant Valid() && Whole() == old(Whole()) && End() == old(End())
        invariant position == |saved| && saved <= name
        decreases |name| - position
      {
        var value := Get();
        if value != At(name, position) {
          assert value != '\0' ==> Whole()[position] == value;
          break;
        }
        if value == '\0' {
          assert position == |name|;
          return Basic(kind);
        }
        position := position + 1;
      }
      token := LexGeneralIdentifier();
    }

    /** The rest of the word is read and the whole of it is a name. */
    method LexGeneralIdentifier() returns (token: Token)
      requires Valid()
      modifies this, reader
      ensures Valid() && Whole() == old(Whole()) && End() == old(End()) && Pending() == ""
      ensures token == Name(Whole())
    {
      while true
        invariant Valid() && Whole() == old(Whole()) && End() == old(End())
        decreases |Pending()|
      {
        var value := Get();
        if value == '\0' {
          break;
        }
      }
      token := Name(saved);
    }

    /** Reads through the switches below a node. */
    method LexNode(node: Node) returns (token: Token)
      requires Valid() && Placed(node, saved)
      modifies this, reader
      ensures Valid() && Whole() == old(Whole()) && End() == old(End()) && Pending() == ""
      ensures token == Decide(node, old(saved), old(Pending()))
      decreases |Pending()|, node
    {
      match node
      case General =>
        token := LexGeneralIdentifier();
      case Only(name, kind) =>
        token := LexPossibleKeyword(name, kind);
      case Prefix(prefix, next) =>
        var all := LexCommonPrefix(prefix);
        if all {
          assert Pending() == Whole()[|prefix|..];
          token := LexNode(next);
        } else {
          token := LexGeneralIdentifier();
        }
      case Branch(ending, choices) =>
        ghost var path := saved;
        var value := Get();
        if value != '\0' {
          ChosenIsPlaced(choices, path, value);
          token := LexNode(Chosen(choices, value));
        } else {
          match ending
          case NoEnd =>
            token := LexGeneralIdentifier();
          case Ends(_, kind) =>
            token := Basic(kind);
          case Checks(name, kind) =>
            token := LexPossibleKeyword(name, kind);
        }
    }

    /**
     The longest run of identifier characters is consumed, and the token is the keyword in the table that is
     written like it, or the name if there is none.
     */
    method LexIdentifier() returns (token: Token)
      requires Valid()
      modifies this, reader
      ensures Valid() && saved == Run(old(reader.Rest()))
      ensures reader.position == old(reader.position) + |Run(old(reader.Rest()))|
      ensures token == Lookup(KeywordTable(), Run(old(reader.Rest())))
    {
      ghost var word := Pending();
      saved := "";
      assert Whole() == word;
      RootWords();
      DecideIsLookup(word);
      token := LexNode(Root());
    }
  }

  lemma {:induction false} ChosenIsPlaced(choices: Choices, path: string, c: char)
    requires AllPlaced(choices, path)
    ensures Placed(Chosen(choices, c), path + [c])
  {
    if choices.Choice? && choices.c != c {
      ChosenIsPlaced(choices.others, path, c);
    }
  }
}
