/**
 The keywords of the language and the nested switches that recognise them: while a word is being read, its
 characters decide which keyword it can still be. Following the switches comes to the same as looking the
 whole word up in the table of keywords.
 */
module Keywords {

  /** The kinds of tokens that are words. */
  datatype Kind =
    | Underscore | OverrideConst | Primitive | PrimitiveFunction | Alignof | And | Assert | Auto | Bool
    | Break | Byte | Case | Catch | Class | Const | ConstCast | Continue | Datatype | Default | Double
    | DynamicCast | Else | Enum | Exception | Export | False | Float | For | If | Import | Inherit | Int
    | Interface | Let | Long | LongLong | Move | Mutable | Namespace | New | NoExcept | Null | Or | Override
    | ReinterpretCast | Require | Return | Scope | Self | Selfconst | Short | Signed | Sizeof | Static
    | Struct | Switch | Template | This | Throw | True | Try | Typeid | Typename | Typeof | UByte | UInt
    | ULong | ULongLong | Unichar | Union | Unreachable | Unsigned | Unused | UnusedResult | UShort | Using
    | Variant | Virtual | Void | While

  /** A keyword, or a name with its text. */
  datatype Token = Basic(kind: Kind) | Name(text: string)

  // ----- The table of keywords -----

  datatype Table = NoWords | Word(name: string, kind: Kind, others: Table)

  function WithUnderscore(others: Table): Table {
    Word("_", Underscore, Word("__override_const", OverrideConst, Word("__primitive", Primitive,
    Word("__primitivefunction", PrimitiveFunction, others))))
  }

  function WithA(others: Table): Table {
    Word("alignof", Alignof, Word("and", And, Word("assert", Assert, Word("auto", Auto, others))))
  }

  function WithB(others: Table): Table {
    Word("bool", Bool, Word("break", Break, Word("byte", Byte, others)))
  }

  function WithC(others: Table): Table {
    Word("case", Case, Word("catch", Catch, Word("class", Class, Word("const", Const,
    Word("const_cast", ConstCast, Word("continue", Continue, others))))))
  }

  function WithD(others: Table): Table {
    Word("datatype", Datatype, Word("default", Default, Word("double", Double,
    Word("dynamic_cast", DynamicCast, others))))
  }

  function WithE(others: Table): Table {
    Word("else", Else, Word("enum", Enum, Word("exception", Exception, Word("export", Export, others))))
  }

  function WithF(others: Table): Table {
    Word("false", False, Word("float", Float, Word("for", For, others)))
  }

  function WithI(others: Table): Table {
    Word("if", If, Word("import", Import, Word("inherit", Inherit, Word("int", Int,
    Word("interface", Interface, others)))))
  }

  function WithL(others: Table): Table {
    Word("let", Let, Word("long", Long, Word("longlong", LongLong, others)))
  }

  function WithM(others: Table): Table {
    Word("move", Move, Word("mutable", Mutable, others))
  }

  function WithN(others: Table): Table {
    Word("namespace", Namespace, Word("new", New, Word("noexcept", NoExcept, Word("null", Null, others))))
  }

  function WithO(others: Table): Table {
    Word("or", Or, Word("override", Override, others))
  }

  function WithR(others: Table): Table {
    Word("reinterpret_cast", ReinterpretCast, Word("require", Require, Word("return", Return, others)))
  }

  function WithS(others: Table): Table {
    Word("scope", Scope, Word("self", Self, Word("selfconst", Selfconst, Word("short", Short,
    Word("signed", Signed, Word("sizeof", Sizeof, Word("static", Static, Word("struct", Struct,
    Word("switch", Switch, others)))))))))
  }

  function WithT(others: Table): Table {
    Word("template", Template, Word("this", This, Word("throw", Throw, Word("true", True, Word("try", Try,
    Word("typeid", Typeid, Word("typename", Typename, Word("typeof", Typeof, others))))))))
  }

  function WithU(others: Table): Table {
    Word("ubyte", UByte, Word("uint", UInt, Word("ulong", ULong, Word("ulonglong", ULongLong,
    Word("unichar", Unichar, Word("union", Union, Word("unreachable", Unreachable,
    Word("unsigned", Unsigned, Word("unused", Unused, Word("unused_result", UnusedResult,
    Word("ushort", UShort, Word("using", Using, others))))))))))))
  }

  function WithV(others: Table): Table {
    Word("variant", Variant, Word("virtual", Virtual, Word("void", Void, others)))
  }

  function TableFromS(): Table {
    WithS(WithT(WithU(WithV(Word("while", While, NoWords)))))
  }

  function TableFromM(): Table {
    WithM(WithN(WithO(WithR(TableFromS()))))
  }

  function TableFromD(): Table {
    WithD(WithE(WithF(WithI(WithL(TableFromM())))))
  }

  /** All keywords of the language. */
  function KeywordTable(): Table {
    WithUnderscore(WithA(WithB(WithC(TableFromD()))))
  }

  /** The keyword that is written like the word, and a name if there is none. */
  function Lookup(table: Table, word: string): Token {
    match table
    case NoWords => Name(word)
    case Word(name, kind, others) => if word == name then Basic(kind) else Lookup(others, word)
  }

  // ----- The switches -----

  /** Constant strings hold no zero before their end. */
  type CString = s: string | '\0' !in s

  /**
   What a switch does when the word ends there: it is a name; it is the keyword named, with or without
   another comparison.
   */
  datatype Ending = NoEnd | Ends(name: CString, kind: Kind) | Checks(name: CString, kind: Kind)

  /**
   What is left to do after some characters: the word can only be a name; it can only be one keyword; it has to
   go on like a common prefix of keywords; or its next character decides, with names as the default.
   */
  datatype Node =
    | General
    | Only(name: CString, kind: Kind)
    | Prefix(prefix: CString, next: Node)
    | Branch(ending: Ending, choices: Choices)

  /** The cases of a switch, in the order of their characters. */
  datatype Choices = NoMore | Choice(c: char, node: Node, others: Choices)

  function AfterUnderscore(): Node {
    Branch(Ends("_", Underscore),
      Choice('_', Branch(NoEnd,
        Choice('o', Only("__override_const", OverrideConst),
        Choice('p', Prefix("__primitive", Branch(Checks("__primitive", Primitive),
          Choice('f', Only("__primitivefunction", PrimitiveFunction), NoMore))), NoMore))), NoMore))
  }

  function AfterA(): Node {
    Branch(NoEnd,
      Choice('l', Only("alignof", Alignof),
      Choice('n', Only("and", And),
      Choice('s', Only("assert", Assert),
      Choice('u', Only("auto", Auto), NoMore)))))
  }

  function AfterB(): Node {
    Branch(NoEnd,
      Choice('o', Only("bool", Bool),
      Choice('r', Only("break", Break),
      Choice('y', Only("byte", Byte), NoMore))))
  }

  function AfterC(): Node {
    Branch(NoEnd,
      Choice('a', Branch(NoEnd, Choice('s', Only("case", Case), Choice('t', Only("catch", Catch), NoMore))),
      Choice('l', Only("class", Class),
      Choice('o', Branch(NoEnd,
        Choice('n', Branch(NoEnd,
          Choice('s', Branch(NoEnd,
            Choice('t', Branch(Ends("const", Const), Choice('_', Only("const_cast", ConstCast), NoMore)), NoMore)),
          Choice('t', Only("continue", Continue), NoMore))), NoMore)), NoMore))))
  }

  function AfterD(): Node {
    Branch(NoEnd,
      Choice('a', Only("datatype", Datatype),
      Choice('e', Only("default", Default),
      Choice('o', Only("double", Double),
      Choice('y', Only("dynamic_cast", DynamicCast), NoMore)))))
  }

  function AfterE(): Node {
    Branch(NoEnd,
      Choice('l', Only("else", Else),
      Choice('n', Only("enum", Enum),
      Choice('x', Branch(NoEnd,
        Choice('c', Only("exception", Exception),
        Choice('p', Only("export", Export), NoMore))), NoMore))))
  }

  function AfterF(): Node {
    Branch(NoEnd,
      Choice('a', Only("false", False),
      Choice('l', Only("float", Float),
      Choice('o', Only("for", For), NoMore))))
  }

  function AfterI(): Node {
    Branch(NoEnd,
      Choice('f', Only("if", If),
      Choice('m', Only("import", Import),
      Choice('n', Branch(NoEnd,
        Choice('h', Only("inherit", Inherit),
        Choice('t', Branch(Checks("int", Int), Choice('e', Only("interface", Interface), NoMore)), NoMore))), NoMore))))
  }

  function AfterL(): Node {
    Branch(NoEnd,
      Choice('e', Only("let", Let),
      Choice('o', Prefix("long", Branch(Ends("long", Long), Choice('l', Only("longlong", LongLong), NoMore))), NoMore)))
  }

  function AfterM(): Node {
    Branch(NoEnd, Choice('o', Only("move", Move), Choice('u', Only("mutable", Mutable), NoMore)))
  }

  function AfterN(): Node {
    Branch(NoEnd,
      Choice('a', Only("namespace", Namespace),
      Choice('e', Only("new", New),
      Choice('o', Only("noexcept", NoExcept),
      Choice('u', Only("null", Null), NoMore)))))
  }

  function AfterO(): Node {
    Branch(NoEnd, Choice('r', Only("or", Or), Choice('v', Only("override", Override), NoMore)))
  }

  function AfterR(): Node {
    Branch(NoEnd,
      Choice('e', Branch(NoEnd,
        Choice('i', Only("reinterpret_cast", ReinterpretCast),
        Choice('q', Only("require", Require),
        Choice('t', Only("return", Return), NoMore)))), NoMore))
  }

  function AfterS(): Node {
    Branch(NoEnd,
      Choice('c', Only("scope", Scope),
      Choice('e', Prefix("self", Branch(Checks("self", Self), Choice('c', Only("selfconst", Selfconst), NoMore))),
      Choice('h', Only("short", Short),
      Choice('i', Branch(NoEnd,
        Choice('g', Only("signed", Signed),
        Choice('z', Only("sizeof", Sizeof), NoMore))),
      Choice('t', Branch(NoEnd,
        Choice('a', Only("static", Static),
        Choice('r', Only("struct", Struct), NoMore))),
      Choice('w', Only("switch", Switch), NoMore)))))))
  }

  function AfterT(): Node {
    Branch(NoEnd,
      Choice('e', Only("template", Template),
      Choice('h', AfterTh(),
      Choice('r', AfterTr(),
      Choice('y', AfterTy(), NoMore)))))
  }

  function AfterTh(): Node {
    Branch(NoEnd, Choice('i', Only("this", This), Choice('r', Only("throw", Throw), NoMore)))
  }

  function AfterTr(): Node {
    Branch(NoEnd, Choice('u', Only("true", True), Choice('y', Only("try", Try), NoMore)))
  }

  function AfterTy(): Node {
    Branch(NoEnd,
      Choice('p', Branch(NoEnd,
        Choice('e', Branch(NoEnd,
          Choice('i', Only("typeid", Typeid),
          Choice('n', Only("typename", Typename),
          Choice('o', Only("typeof", Typeof), NoMore)))), NoMore)), NoMore))
  }

  function AfterU(): Node {
    Branch(NoEnd,
      Choice('b', Only("ubyte", UByte),
      Choice('i', Only("uint", UInt),
      Choice('l', AfterUl(),
      Choice('n', AfterUn(),
      Choice('s', AfterUs(), NoMore))))))
  }

  function AfterUl(): Node {
    Prefix("ulong", Branch(Ends("ulong", ULong), Choice('l', Only("ulonglong", ULongLong), NoMore)))
  }

  function AfterUn(): Node {
    Branch(NoEnd,
      Choice('i', Branch(NoEnd,
        Choice('c', Only("unichar", Unichar),
        Choice('o', Only("union", Union), NoMore))),
      Choice('r', Only("unreachable", Unreachable),
      Choice('s', Only("unsigned", Unsigned),
      Choice('u', Prefix("unused", Branch(Checks("unused", Unused),
        Choice('_', Only("unused_result", UnusedResult), NoMore))), NoMore)))))
  }

  function AfterUs(): Node {
    Branch(NoEnd, Choice('h', Only("ushort", UShort), Choice('i', Only("using", Using), NoMore)))
  }

  function AfterV(): Node {
    Branch(NoEnd,
      Choice('a', Only("variant", Variant),
      Choice('i', Only("virtual", Virtual),
      Choice('o', Only("void", Void), NoMore))))
  }

  function FromS(): Choices {
      Choice('s', AfterS(), Choice('t', AfterT(), Choice('u', AfterU(), Choice('v', AfterV(),
      Choice('w', Only("while", While), NoMore)))))
  }

  function FromM(): Choices {
      Choice('m', AfterM(), Choice('n', AfterN(), Choice('o', AfterO(), Choice('r', AfterR(), FromS()))))
  }

  function FromD(): Choices {
      Choice('d', AfterD(), Choice('e', AfterE(), Choice('f', AfterF(), Choice('i', AfterI(),
      Choice('l', AfterL(), FromM())))))
  }

  function FirstChoices(): Choices {
      Choice('_', AfterUnderscore(), Choice('a', AfterA(), Choice('b', AfterB(),
      Choice('c', AfterC(), FromD()))))
  }

  /** The switch on the first character. */
  function Root(): Node {
    Branch(NoEnd, FirstChoices())
  }

  // ----- Following the switches -----

  function Chosen(choices: Choices, c: char): Node {
    match choices
    case NoMore => General
    case Choice(own, node, others) => if own == c then node else Chosen(others, c)
  }

  function AtEnd(ending: Ending, word: string): Token {
    match ending
    case NoEnd => Name(word)
    case Ends(_, kind) => Basic(kind)
    case Checks(name, kind) => if word == name then Basic(kind) else Name(word)
  }

  /** The token for a word of which `path` has been read on the way to the node, and `rest` comes next. */
  function Decide(node: Node, path: string, rest: string): Token
    decreases |rest|, node
  {
    match node
    case General => Name(path + rest)
    case Only(name, kind) => if path + rest == name then Basic(kind) else Name(path + rest)
    case Prefix(prefix, next) =>
      if |path| <= |prefix| && prefix <= path + rest
      then Decide(next, prefix, (path + rest)[|prefix|..])
      else Name(path + rest)
    case Branch(ending, choices) =>
      if rest == "" then AtEnd(ending, path) else Decide(Chosen(choices, rest[0]), path + [rest[0]], rest[1..])
  }

  // ----- The words below a node -----

  /** The keywords below a node, in front of others. */
  function Words(node: Node, path: string, others: Table): Table
    decreases node
  {
    match node
    case General => others
    case Only(name, kind) => Word(name, kind, others)
    case Prefix(prefix, next) => Words(next, prefix, others)
    case Branch(ending, choices) =>
      var longer := ChoiceWords(choices, path, others);
      if ending.NoEnd? then longer else Word(ending.name, ending.kind, longer)
  }

  function ChoiceWords(choices: Choices, path: string, others: Table): Table
    decreases choices
  {
    match choices
    case NoMore => others
    case Choice(c, node, more) => Words(node, path + [c], ChoiceWords(more, path, others))
  }

  /** Every keyword stands below the characters it begins with, and cases are in order. */
  predicate Placed(node: Node, path: string)
    decreases node
  {
    match node
    case General => true
    case Only(name, _) => path <= name
    case Prefix(prefix, next) => path <= prefix && Placed(next, prefix)
    case Branch(ending, choices) => (!ending.NoEnd? ==> ending.name == path) && AllPlaced(choices, path)
  }

  predicate AllPlaced(choices: Choices, path: string)
    decreases choices
  {
    match choices
    case NoMore => true
    case Choice(c, node, others) =>
      && Placed(node, path + [c])
      && (others.Choice? ==> c < others.c)
      && AllPlaced(others, path)
  }

  // ----- Deciding is looking up -----

  lemma PrefixExtends(path: string, c: char, s: string)
    requires path + [c] <= s
    ensures path <= s && |path| < |s| && s[|path|] == c
  {
    assert path == (path + [c])[..|path|] == s[..|path|];
    assert s[|path|] == (path + [c])[|path|];
  }

  /** A word that does not begin with the path of a node is none of its keywords. */
  lemma {:induction false} OtherWordsMiss(node: Node, path: string, others: Table, s: string)
    requires Placed(node, path) && !(path <= s)
    ensures Lookup(Words(node, path, others), s) == Lookup(others, s)
    decreases node
  {
    match node
    case General =>
    case Only(_, _) =>
    case Prefix(prefix, next) => OtherWordsMiss(next, prefix, others, s);
    case Branch(_, choices) => OtherChoicesMiss(choices, path, others, s);
  }

  /** Nor is a word that goes on with none of the characters of a switch. */
  lemma {:induction false} OtherChoicesMiss(choices: Choices, path: string, others: Table, s: string)
    requires AllPlaced(choices, path)
    requires path <= s && |path| < |s| ==> choices.Choice? ==> s[|path|] < choices.c
    ensures Lookup(ChoiceWords(choices, path, others), s) == Lookup(others, s)
    decreases choices
  {
    match choices
    case NoMore =>
    case Choice(c, node, more) =>
      if path + [c] <= s {
        PrefixExtends(path, c, s);
        assert false;
      }
      OtherWordsMiss(node, path + [c], ChoiceWords(more, path, others), s);
      OtherChoicesMiss(more, path, others, s);
  }

  /** What the switches find is what comes first among the keywords below them; otherwise the others decide. */
  lemma {:induction false} DecidesFirst(node: Node, path: string, rest: string, others: Table)
    requires Placed(node, path)
    ensures var token, word := Decide(node, path, rest), path + rest;
      && (token.Name? ==> token.text == word)
      && Lookup(Words(node, path, others), word) == if token.Basic? then token else Lookup(others, word)
    decreases node
  {
    var word := path + rest;
    match node
    case General =>
    case Only(_, _) =>
    case Prefix(prefix, next) =>
      if prefix <= word {
        assert prefix + word[|prefix|..] == word;
        DecidesFirst(next, prefix, word[|prefix|..], others);
      } else {
        OtherWordsMiss(next, prefix, others, word);
      }
    case Branch(ending, choices) =>
      if rest == "" {
        assert word == path;
        OtherChoicesMiss(choices, path, others, word);
      } else {
        ChoicesDecide(choices, path, rest, others);
        assert |word| != |path|;
      }
  }

  lemma {:induction false} ChoicesDecide(choices: Choices, path: string, rest: string, others: Table)
    requires AllPlaced(choices, path) && rest != ""
    ensures var token, word := Decide(Chosen(choices, rest[0]), path + [rest[0]], rest[1..]), path + rest;
      && (token.Name? ==> token.text == word)
      && Lookup(ChoiceWords(choices, path, others), word) == if token.Basic? then token else Lookup(others, word)
    decreases choices
  {
    var word := path + rest;
    assert path + [rest[0]] + rest[1..] == word;
    match choices
    case NoMore =>
    case Choice(c, node, more) =>
      if c == rest[0] {
        DecidesFirst(node, path + [c], rest[1..], ChoiceWords(more, path, others));
        OtherChoicesMiss(more, path, others, word);
      } else {
        ChoicesDecide(more, path, rest, others);
        assert word[|path|] == rest[0] && (path + [c])[|path|] == c;
        OtherWordsMiss(node, path + [c], ChoiceWords(more, path, others), word);
      }
  }

  // ----- These switches -----

  lemma UnderscoreWords(others: Table)
    ensures Placed(AfterUnderscore(), "_") && Words(AfterUnderscore(), "_", others) == WithUnderscore(others)
  {}

  lemma AWords(others: Table)
    ensures Placed(AfterA(), "a") && Words(AfterA(), "a", others) == WithA(others)
  {}

  lemma BWords(others: Table)
    ensures Placed(AfterB(), "b") && Words(AfterB(), "b", others) == WithB(others)
  {}

  lemma CWords(others: Table)
    ensures Placed(AfterC(), "c") && Words(AfterC(), "c", others) == WithC(others)
  {}

  lemma DWords(others: Table)
    ensures Placed(AfterD(), "d") && Words(AfterD(), "d", others) == WithD(others)
  {}

  lemma EWords(others: Table)
    ensures Placed(AfterE(), "e") && Words(AfterE(), "e", others) == WithE(others)
  {}

  lemma FWords(others: Table)
    ensures Placed(AfterF(), "f") && Words(AfterF(), "f", others) == WithF(others)
  {}

  lemma IWords(others: Table)
    ensures Placed(AfterI(), "i") && Words(AfterI(), "i", others) == WithI(others)
  {}

  lemma LWords(others: Table)
    ensures Placed(AfterL(), "l") && Words(AfterL(), "l", others) == WithL(others)
  {}

  lemma MWords(others: Table)
    ensures Placed(AfterM(), "m") && Words(AfterM(), "m", others) == WithM(others)
  {}

  lemma NWords(others: Table)
    ensures Placed(AfterN(), "n") && Words(AfterN(), "n", others) == WithN(others)
  {}

  lemma OWords(others: Table)
    ensures Placed(AfterO(), "o") && Words(AfterO(), "o", others) == WithO(others)
  {}

  lemma RWords(others: Table)
    ensures Placed(AfterR(), "r") && Words(AfterR(), "r", others) == WithR(others)
  {}

  lemma SWords(others: Table)
    ensures Placed(AfterS(), "s") && Words(AfterS(), "s", others) == WithS(others)
  {}

  lemma ThWords(others: Table)
    ensures Placed(AfterTh(), "th")
    ensures Words(AfterTh(), "th", others) ==
      Word("this", This, Word("throw", Throw, others))
  {}

  lemma TrWords(others: Table)
    ensures Placed(AfterTr(), "tr")
    ensures Words(AfterTr(), "tr", others) ==
      Word("true", True, Word("try", Try, others))
  {}

  lemma TyWords(others: Table)
    ensures Placed(AfterTy(), "ty")
    ensures Words(AfterTy(), "ty", others) ==
      Word("typeid", Typeid, Word("typename", Typename, Word("typeof", Typeof, others)))
  {}

  lemma TWords(others: Table)
    ensures Placed(AfterT(), "t") && Words(AfterT(), "t", others) == WithT(others)
  {
    hide AfterTh, AfterTr, AfterTy;
    assert "t" + ['h'] == "th";
    ThWords(Word("true", True, Word("try", Try, Word("typeid", Typeid, Word("typename", Typename,
      Word("typeof", Typeof, others))))));
    assert "t" + ['r'] == "tr";
    TrWords(Word("typeid", Typeid, Word("typename", Typename, Word("typeof", Typeof, others))));
    assert "t" + ['y'] == "ty";
    TyWords(others);
  }

  lemma UlWords(others: Table)
    ensures Placed(AfterUl(), "ul")
    ensures Words(AfterUl(), "ul", others) ==
      Word("ulong", ULong, Word("ulonglong", ULongLong, others))
  {}

  lemma UnWords(others: Table)
    ensures Placed(AfterUn(), "un")
    ensures Words(AfterUn(), "un", others) ==
      Word("unichar", Unichar, Word("union", Union, Word("unreachable", Unreachable,
      Word("unsigned", Unsigned, Word("unused", Unused, Word("unused_result", UnusedResult, others))))))
  {}

  lemma UsWords(others: Table)
    ensures Placed(AfterUs(), "us")
    ensures Words(AfterUs(), "us", others) ==
      Word("ushort", UShort, Word("using", Using, others))
  {}

  lemma UWords(others: Table)
    ensures Placed(AfterU(), "u") && Words(AfterU(), "u", others) == WithU(others)
  {
    hide AfterUl, AfterUn, AfterUs;
    assert "u" + ['l'] == "ul";
    UlWords(Word("unichar", Unichar, Word("union", Union, Word("unreachable", Unreachable,
      Word("unsigned", Unsigned, Word("unused", Unused, Word("unused_result", UnusedResult,
      Word("ushort", UShort, Word("using", Using, others)))))))));
    assert "u" + ['n'] == "un";
    UnWords(Word("ushort", UShort, Word("using", Using, others)));
    assert "u" + ['s'] == "us";
    UsWords(others);
  }

  lemma VWords(others: Table)
    ensures Placed(AfterV(), "v") && Words(AfterV(), "v", others) == WithV(others)
  {}

  lemma EmptyPrefix()
    ensures forall c: char :: "" + [c] == [c]
  {}

  lemma WhileWords(others: Table)
    ensures var node := Only("while", While);
      Placed(node, "w") && Words(node, "w", others) == Word("while", While, others)
  {}

  lemma FromSWords()
    ensures AllPlaced(FromS(), "") && ChoiceWords(FromS(), "", NoWords) == TableFromS()
  {
    EmptyPrefix();
    hide Placed, Words, AfterS, AfterT, AfterU, AfterV, WithS, WithT, WithU, WithV;
    WhileWords(NoWords);
    VWords(Word("while", While, NoWords));
    UWords(WithV(Word("while", While, NoWords)));
    TWords(WithU(WithV(Word("while", While, NoWords))));
    SWords(WithT(WithU(WithV(Word("while", While, NoWords)))));
  }

  lemma FromMWords()
    ensures AllPlaced(FromM(), "") && ChoiceWords(FromM(), "", NoWords) == TableFromM()
  {
    EmptyPrefix();
    FromSWords();
    assert FromS().Choice? && FromS().c == 's';
    hide Placed, Words, AfterM, AfterN, AfterO, AfterR, WithM, WithN, WithO, WithR, FromS, TableFromS;
    RWords(TableFromS());
    OWords(WithR(TableFromS()));
    NWords(WithO(WithR(TableFromS())));
    MWords(WithN(WithO(WithR(TableFromS()))));
  }

  lemma FromDWords()
    ensures AllPlaced(FromD(), "") && ChoiceWords(FromD(), "", NoWords) == TableFromD()
  {
    EmptyPrefix();
    FromMWords();
    assert FromM().Choice? && FromM().c == 'm';
    hide Placed, Words, AfterD, AfterE, AfterF, AfterI, AfterL, WithD, WithE, WithF, WithI, WithL,
      FromM, TableFromM;
    LWords(TableFromM());
    IWords(WithL(TableFromM()));
    FWords(WithI(WithL(TableFromM())));
    EWords(WithF(WithI(WithL(TableFromM()))));
    DWords(WithE(WithF(WithI(WithL(TableFromM())))));
  }

  lemma FirstWords()
    ensures AllPlaced(FirstChoices(), "") && ChoiceWords(FirstChoices(), "", NoWords) == KeywordTable()
  {
    EmptyPrefix();
    FromDWords();
    assert FromD().Choice? && FromD().c == 'd';
    hide Placed, Words, AfterUnderscore, AfterA, AfterB, AfterC, WithUnderscore, WithA, WithB, WithC,
      FromD, TableFromD;
    CWords(TableFromD());
    BWords(WithC(TableFromD()));
    AWords(WithB(WithC(TableFromD())));
    UnderscoreWords(WithA(WithB(WithC(TableFromD()))));
  }

  /** The words of the switches are the keywords, each in its place. */
  lemma RootWords()
    ensures Placed(Root(), "") && Words(Root(), "", NoWords) == KeywordTable()
  {
    hide FirstChoices, KeywordTable;
    FirstWords();
  }

  /** For every word the switches give what looking it up among all keywords gives. */
  lemma DecideIsLookup(word: string)
    ensures Decide(Root(), "", word) == Lookup(KeywordTable(), word)
  {
    RootWords();
    hide Root, KeywordTable;
    DecidesFirst(Root(), "", word, NoWords);
    assert "" + word == word;
  }
}
