/** Operator precedence (lparser.c:1080-1286): 'subexpr' and its priority table build the one tree that fits the
    priorities. Expressions are of constants, names, parentheses, calls of one argument, indices and operators. */
module OperatorParser {

  datatype BinOp = Add | Sub | Mul | Mod | Pow | Div | IDiv | BAnd | BOr | BXor | Shl | Shr | Concat | Eq | Lt | Le
    | Ne | Gt | Ge | And | Or

  datatype UnOp = Minus | BNot | Not | Len

  datatype Kind = Call | Index

  datatype Token =
    | Constant(n: int) | Name(name: string) | Open | Close | OpenIndex | CloseIndex
    | DashSign | TildeSign | NotSign | LenSign | Sign(op: BinOp) | EndOfStream

  datatype Option<T> = None | Some(value: T)

  datatype Tree =
    | Const(n: int)
    | Var(name: string)
    | Paren(body: Tree)
    | Suffix(kind: Kind, prefix: Tree, arg: Tree)
    | Un(uop: UnOp, operand: Tree)
    | Bin(op: BinOp, left: Tree, right: Tree)

  datatype Parsed = Got(tree: Tree, rest: seq<Token>) | SyntaxError | Overflow

  const UNARY_PRIORITY: nat := 12

  // ----- tokens and priorities (lparser.c:1185-1248) -----

  function GetUnOpr(t: Token): Option<UnOp> {
    match t
    case NotSign => Some(Not)
    case DashSign => Some(Minus)
    case TildeSign => Some(BNot)
    case LenSign => Some(Len)
    case _ => None
  }

  /** The signs of subtraction and exclusive or are those of two unary operators. */
  function GetBinOpr(t: Token): Option<BinOp> {
    match t
    case DashSign => Some(Sub)
    case TildeSign => Some(BXor)
    case Sign(op) => if op == Sub || op == BXor then None else Some(op)
    case _ => None
  }

  function BinToken(op: BinOp): (t: Token)
    ensures GetBinOpr(t) == Some(op) && t != Open && t != OpenIndex
  {
    match op
    case Sub => DashSign
    case BXor => TildeSign
    case _ => Sign(op)
  }

  function UnToken(op: UnOp): (t: Token)
    ensures GetUnOpr(t) == Some(op)
  {
    match op
    case Minus => DashSign
    case BNot => TildeSign
    case Not => NotSign
    case Len => LenSign
  }

  lemma TokenOfBin(t: Token)
    ensures GetBinOpr(t).Some? ==> t == BinToken(GetBinOpr(t).value)
  {
  }

  function LeftPriority(op: BinOp): nat {
    match op
    case Add => 10 case Sub => 10 case Mul => 11 case Mod => 11 case Pow => 14 case Div => 11 case IDiv => 11
    case BAnd => 6 case BOr => 4 case BXor => 5 case Shl => 7 case Shr => 7 case Concat => 9
    case Eq => 3 case Lt => 3 case Le => 3 case Ne => 3 case Gt => 3 case Ge => 3 case And => 2 case Or => 1
  }

  function RightPriority(op: BinOp): nat {
    match op
    case Pow => 13
    case Concat => 8
    case _ => LeftPriority(op)
  }

  function Cur(s: seq<Token>): Token { if s == [] then EndOfStream else s[0] }

  function Opens(kind: Kind): Token { if kind == Call then Open else OpenIndex }

  function Closes(kind: Kind): Token { if kind == Call then Close else CloseIndex }

  // ----- the trees that fit the priorities -----

  function Tokens(t: Tree): (s: seq<Token>)
    ensures |s| > 0
  {
    match t
    case Const(n) => [Constant(n)]
    case Var(name) => [Name(name)]
    case Paren(u) => [Open] + Tokens(u) + [Close]
    case Suffix(k, p, a) => Tokens(p) + [Opens(k)] + Tokens(a) + [Closes(k)]
    case Un(op, u) => [UnToken(op)] + Tokens(u)
    case Bin(op, l, r) => Tokens(l) + [BinToken(op)] + Tokens(r)
  }

  lemma BinTokens(op: BinOp, l: Tree, r: Tree, rest: seq<Token>)
    ensures Tokens(Bin(op, l, r)) + rest == Tokens(l) + ([BinToken(op)] + (Tokens(r) + rest))
    ensures ([BinToken(op)] + (Tokens(r) + rest))[1..] == Tokens(r) + rest
  {
  }

  lemma SuffixTokens(k: Kind, p: Tree, a: Tree, rest: seq<Token>)
    ensures Tokens(Suffix(k, p, a)) + rest == Tokens(p) + ([Opens(k)] + (Tokens(a) + ([Closes(k)] + rest)))
    ensures ([Opens(k)] + (Tokens(a) + ([Closes(k)] + rest)))[1..] == Tokens(a) + ([Closes(k)] + rest)
    ensures ([Closes(k)] + rest)[1..] == rest
  {
  }

  predicate IsPrefix(t: Tree) { t.Var? || t.Paren? || t.Suffix? }

  /** Nothing that ends the tree takes the next token for itself. */
  predicate StopsAt(t: Tree, next: Token) {
    match t
    case Const(_) => true
    case Un(_, u) => (GetBinOpr(next).Some? ==> LeftPriority(GetBinOpr(next).value) <= UNARY_PRIORITY) &&
      StopsAt(u, next)
    case Bin(op, _, r) => (GetBinOpr(next).Some? ==> LeftPriority(GetBinOpr(next).value) <= RightPriority(op)) &&
      StopsAt(r, next)
    case _ => next != Open && next != OpenIndex
  }

  /** All operators of the tree outside parentheses bind above `limit`, and every operand is what its place demands. */
  predicate Fits(t: Tree, limit: nat) {
    match t
    case Const(_) => true
    case Var(_) => true
    case Paren(u) => Fits(u, 0)
    case Suffix(_, p, a) => IsPrefix(p) && Fits(p, 0) && Fits(a, 0)
    case Un(_, u) => Fits(u, UNARY_PRIORITY)
    case Bin(op, l, r) =>
      LeftPriority(op) > limit && Fits(l, limit) && StopsAt(l, BinToken(op)) && Fits(r, RightPriority(op))
  }

  predicate NotAbove(next: Token, limit: nat) { GetBinOpr(next).Some? ==> LeftPriority(GetBinOpr(next).value) <= limit }

  /** How many calls of the parser are active at once, at most, within the one that builds the tree. */
  function Inner(t: Tree): nat {
    match t
    case Const(_) => 0
    case Var(_) => 0
    case Paren(u) => Inner(u) + 1
    case Suffix(_, p, a) => Max(Inner(p), Inner(a) + 1)
    case Un(_, u) => Inner(u) + 1
    case Bin(_, l, r) => Max(Inner(l), Inner(r) + 1)
  }

  function Max(a: nat, b: nat): nat { if a < b then b else a }

  // ----- what the parser computes -----

  /** 'subexpr' when `room` more calls are allowed. */
  function SubExpr(s: seq<Token>, limit: nat, room: nat): (r: Parsed)
    ensures r.Got? ==> |r.rest| < |s|
    decreases |s|, 3
  {
    if room == 0 then Overflow else Operators(s, limit, room - 1)
  }

  function Operators(s: seq<Token>, limit: nat, room: nat): (r: Parsed)
    ensures r.Got? ==> |r.rest| < |s|
    decreases |s|, 2
  {
    var h := Head(s, room);
    if h.Got? then MoreOperators(h.tree, h.rest, limit, room) else h
  }

  function Head(s: seq<Token>, room: nat): (r: Parsed)
    ensures r.Got? ==> |r.rest| < |s|
    decreases |s|, 1
  {
    if GetUnOpr(Cur(s)).Some? then
      var u := SubExpr(s[1..], UNARY_PRIORITY, room);
      if u.Got? then Got(Un(GetUnOpr(Cur(s)).value, u.tree), u.rest) else u
    else if Cur(s).Constant? then Got(Const(s[0].n), s[1..])
    else Suffixed(s, room)
  }

  function MoreOperators(v: Tree, s: seq<Token>, limit: nat, room: nat): (r: Parsed)
    ensures r.Got? ==> |r.rest| <= |s|
    decreases |s|, 0
  {
    var op := GetBinOpr(Cur(s));
    if op.Some? && LeftPriority(op.value) > limit then
      var r := SubExpr(s[1..], RightPriority(op.value), room);
      if r.Got? then MoreOperators(Bin(op.value, v, r.tree), r.rest, limit, room) else r
    else Got(v, s)
  }

  function Suffixed(s: seq<Token>, room: nat): (r: Parsed)
    ensures r.Got? ==> |r.rest| < |s|
    decreases |s|, 0
  {
    if Cur(s).Name? then MoreSuffixes(Var(s[0].name), s[1..], room)
    else if Cur(s) == Open then
      var u := SubExpr(s[1..], 0, room);
      if !u.Got? then u
      else if Cur(u.rest) != Close then SyntaxError
      else MoreSuffixes(Paren(u.tree), u.rest[1..], room)
    else SyntaxError
  }

  function MoreSuffixes(v: Tree, s: seq<Token>, room: nat): (r: Parsed)
    ensures r.Got? ==> |r.rest| <= |s|
    decreases |s|, 0
  {
    if Cur(s) == Open || Cur(s) == OpenIndex then
      var kind := if Cur(s) == Open then Call else Index;
      var a := SubExpr(s[1..], 0, room);
      if !a.Got? then a
      else if Cur(a.rest) != Closes(kind) then SyntaxError
      else MoreSuffixes(Suffix(kind, v, a.tree), a.rest[1..], room)
    else Got(v, s)
  }

  // ----- the tree it builds fits, and is made of the tokens consumed -----

  lemma {:induction false} SubExprSound(s: seq<Token>, limit: nat, room: nat)
    ensures var p := SubExpr(s, limit, room);
      p.Got? ==>
        s == Tokens(p.tree) + p.rest && Fits(p.tree, limit) && StopsAt(p.tree, Cur(p.rest)) &&
        NotAbove(Cur(p.rest), limit)
    decreases |s|, 3
  {
    if room > 0 {
      HeadSound(s, room - 1);
      var h := Head(s, room - 1);
      if h.Got? {
        HeadFits(h.tree, limit);
        MoreOperatorsSound(h.tree, h.rest, limit, room - 1);
      }
    }
  }

  /** What is no binary operation fits any limit. */
  lemma HeadFits(t: Tree, limit: nat)
    requires Fits(t, 0) && !t.Bin?
    ensures Fits(t, limit)
  {
  }

  lemma {:induction false} HeadSound(s: seq<Token>, room: nat)
    ensures var p := Head(s, room);
      p.Got? ==> s == Tokens(p.tree) + p.rest && !p.tree.Bin? && Fits(p.tree, 0) && StopsAt(p.tree, Cur(p.rest))
    decreases |s|, 2
  {
    if GetUnOpr(Cur(s)).Some? {
      SubExprSound(s[1..], UNARY_PRIORITY, room);
      assert s == [s[0]] + s[1..] && s[0] == UnToken(GetUnOpr(s[0]).value);
    } else if Cur(s).Constant? {
      assert s == [s[0]] + s[1..];
    } else if Cur(s).Name? {
      assert s == [s[0]] + s[1..];
      MoreSuffixesSound(Var(s[0].name), s[1..], room);
    } else if Cur(s) == Open {
      assert s == [s[0]] + s[1..];
      SubExprSound(s[1..], 0, room);
      var u := SubExpr(s[1..], 0, room);
      if u.Got? && Cur(u.rest) == Close {
        assert u.rest == [Close] + u.rest[1..];
        assert s == Tokens(Paren(u.tree)) + u.rest[1..];
        MoreSuffixesSound(Paren(u.tree), u.rest[1..], room);
      }
    }
  }

  lemma {:induction false} MoreSuffixesSound(v: Tree, s: seq<Token>, room: nat)
    requires IsPrefix(v) && Fits(v, 0)
    ensures var p := MoreSuffixes(v, s, room);
      p.Got? ==>
        Tokens(v) + s == Tokens(p.tree) + p.rest && IsPrefix(p.tree) && Fits(p.tree, 0) && StopsAt(p.tree, Cur(p.rest))
    decreases |s|, 0
  {
    if Cur(s) == Open || Cur(s) == OpenIndex {
      var kind := if Cur(s) == Open then Call else Index;
      var a := SubExpr(s[1..], 0, room);
      SubExprSound(s[1..], 0, room);
      if a.Got? && Cur(a.rest) == Closes(kind) {
        var w := Suffix(kind, v, a.tree);
        assert a.rest == [Closes(kind)] + a.rest[1..] && s == [Opens(kind)] + s[1..];
        SuffixTokens(kind, v, a.tree, a.rest[1..]);
        MoreSuffixesSound(w, a.rest[1..], room);
      }
    }
  }

  lemma {:induction false} MoreOperatorsSound(v: Tree, s: seq<Token>, limit: nat, room: nat)
    requires Fits(v, limit) && StopsAt(v, Cur(s))
    ensures var p := MoreOperators(v, s, limit, room);
      p.Got? ==>
        Tokens(v) + s == Tokens(p.tree) + p.rest && Fits(p.tree, limit) && StopsAt(p.tree, Cur(p.rest)) &&
        NotAbove(Cur(p.rest), limit)
    decreases |s|, 0
  {
    var op := GetBinOpr(Cur(s));
    if op.Some? && LeftPriority(op.value) > limit {
      TokenOfBin(Cur(s));
      var r := SubExpr(s[1..], RightPriority(op.value), room);
      SubExprSound(s[1..], RightPriority(op.value), room);
      if r.Got? {
        var w := Bin(op.value, v, r.tree);
        assert s == [BinToken(op.value)] + s[1..];
        BinTokens(op.value, v, r.tree, r.rest);
        MoreOperatorsSound(w, r.rest, limit, room);
      }
    }
  }

  // ----- every tree that fits is built -----

  /** The parser builds exactly the tree that fits, unless that takes too many calls. */
  lemma {:induction false} SubExprComplete(t: Tree, rest: seq<Token>, limit: nat, room: nat)
    requires Fits(t, limit) && StopsAt(t, Cur(rest)) && NotAbove(Cur(rest), limit)
    ensures SubExpr(Tokens(t) + rest, limit, room) == if Inner(t) < room then Got(t, rest) else Overflow
    decreases t, 3
  {
    if room > 0 {
      OperatorsComplete(t, rest, limit, room - 1);
    }
  }

  lemma {:induction false} OperatorsComplete(t: Tree, rest: seq<Token>, limit: nat, room: nat)
    requires Fits(t, limit) && StopsAt(t, Cur(rest))
    ensures Operators(Tokens(t) + rest, limit, room) == if Inner(t) <= room then MoreOperators(t, rest, limit, room)
      else Overflow
    decreases t, 2
  {
    match t {
      case Bin(op, l, r) =>
        var rest' := [BinToken(op)] + (Tokens(r) + rest);
        BinTokens(op, l, r, rest);
        OperatorsComplete(l, rest', limit, room);
        SubExprComplete(r, rest, RightPriority(op), room);
      case _ =>
        HeadComplete(t, rest, room);
    }
  }

  lemma {:induction false} HeadComplete(t: Tree, rest: seq<Token>, room: nat)
    requires Fits(t, 0) && !t.Bin? && StopsAt(t, Cur(rest))
    ensures Head(Tokens(t) + rest, room) == if Inner(t) <= room then Got(t, rest) else Overflow
    decreases t, 1
  {
    var s := Tokens(t) + rest;
    if t.Const? {
      assert s[1..] == rest;
    } else if t.Un? {
      assert s[0] == UnToken(t.uop) && s[1..] == Tokens(t.operand) + rest;
      SubExprComplete(t.operand, rest, UNARY_PRIORITY, room);
    } else {
      PrefixStarts(t);
      assert Cur(s) == Tokens(t)[0];
      SuffixedComplete(t, rest, room);
    }
  }

  lemma {:induction false} PrefixStarts(t: Tree)
    requires IsPrefix(t) && Fits(t, 0)
    ensures Tokens(t)[0].Name? || Tokens(t)[0] == Open
  {
    if t.Suffix? { PrefixStarts(t.prefix); }
  }

  lemma {:induction false} SuffixedComplete(t: Tree, rest: seq<Token>, room: nat)
    requires IsPrefix(t) && Fits(t, 0)
    ensures Suffixed(Tokens(t) + rest, room) == if Inner(t) <= room then MoreSuffixes(t, rest, room) else Overflow
    decreases t, 0
  {
    var s := Tokens(t) + rest;
    match t {
      case Var(_) => assert s[1..] == rest;
      case Paren(u) =>
        ClosedStops(u, Close);
        SubExprComplete(u, [Close] + rest, 0, room);
        OneParen(u, s, rest, room);
      case Suffix(k, p, a) =>
        var rest' := [Opens(k)] + (Tokens(a) + ([Closes(k)] + rest));
        SuffixTokens(k, p, a, rest);
        SuffixedComplete(p, rest', room);
        ClosedStops(a, Closes(k));
        SubExprComplete(a, [Closes(k)] + rest, 0, room);
        OneSuffix(k, p, a, rest', rest, room);
      case _ =>
    }
  }

  /** Reading an expression in parentheses. */
  lemma OneParen(u: Tree, s: seq<Token>, rest: seq<Token>, room: nat)
    requires s == Tokens(Paren(u)) + rest
    requires SubExpr(Tokens(u) + ([Close] + rest), 0, room) == if Inner(u) < room then Got(u, [Close] + rest)
      else Overflow
    ensures Suffixed(s, room) == if Inner(u) < room then MoreSuffixes(Paren(u), rest, room) else Overflow
  {
    assert s[0] == Open && s[1..] == Tokens(u) + ([Close] + rest) && ([Close] + rest)[1..] == rest;
  }

  /** Reading one suffix. */
  lemma OneSuffix(k: Kind, p: Tree, a: Tree, s: seq<Token>, rest: seq<Token>, room: nat)
    requires s != [] && s[0] == Opens(k)
    requires SubExpr(s[1..], 0, room) == if Inner(a) < room then Got(a, [Closes(k)] + rest) else Overflow
    ensures MoreSuffixes(p, s, room) == if Inner(a) < room then MoreSuffixes(Suffix(k, p, a), rest, room) else Overflow
  {
    assert ([Closes(k)] + rest)[1..] == rest;
  }

  lemma {:induction false} ClosedStops(t: Tree, next: Token)
    requires next == Close || next == CloseIndex
    ensures StopsAt(t, next)
  {
    match t {
      case Un(_, u) => ClosedStops(u, next);
      case Bin(_, _, r) => ClosedStops(r, next);
      case _ =>
    }
  }

  /** The tree is the only one of its tokens that fits and does not take what follows. */
  lemma Unique(t: Tree, rest: seq<Token>, t': Tree, rest': seq<Token>, limit: nat)
    requires Tokens(t) + rest == Tokens(t') + rest'
    requires Fits(t, limit) && StopsAt(t, Cur(rest)) && NotAbove(Cur(rest), limit)
    requires Fits(t', limit) && StopsAt(t', Cur(rest')) && NotAbove(Cur(rest'), limit)
    ensures t == t' && rest == rest'
  {
    var room := Inner(t) + Inner(t') + 1;
    SubExprComplete(t, rest, limit, room);
    SubExprComplete(t', rest', limit, room);
  }

  /** The parser rejects only what no tree that fits begins. */
  lemma RejectedRightly(s: seq<Token>, limit: nat, room: nat, t: Tree, rest: seq<Token>)
    requires SubExpr(s, limit, room) == SyntaxError && s == Tokens(t) + rest
    requires StopsAt(t, Cur(rest)) && NotAbove(Cur(rest), limit)
    ensures !Fits(t, limit)
  {
    if Fits(t, limit) { SubExprComplete(t, rest, limit, room); }
  }

  // ----- printing with the parentheses that priorities require -----

  function Strip(t: Tree): (r: Tree)
    ensures !r.Paren?
  {
    match t
    case Const(_) => t
    case Var(_) => t
    case Paren(u) => Strip(u)
    case Suffix(k, p, a) => Suffix(k, Strip(p), Strip(a))
    case Un(op, u) => Un(op, Strip(u))
    case Bin(op, l, r) => Bin(op, Strip(l), Strip(r))
  }

  /** The tree with parentheses added where `limit`, a following operator or a suffix would take it apart. */
  function Parenthesized(t: Tree, limit: nat): Tree
    decreases t, if t.Bin? && LeftPriority(t.op) <= limit then 1 else 0
  {
    match t
    case Const(_) => t
    case Var(_) => t
    case Paren(u) => Paren(Parenthesized(u, 0))
    case Suffix(k, p, a) =>
      var p' := Parenthesized(p, 0);
      Suffix(k, if IsPrefix(p') then p' else Paren(p'), Parenthesized(a, 0))
    case Un(op, u) => Un(op, Parenthesized(u, UNARY_PRIORITY))
    case Bin(op, l, r) =>
      if LeftPriority(op) <= limit then Paren(Parenthesized(t, 0))
      else
        var l' := Parenthesized(l, limit);
        Bin(op, if StopsAt(l', BinToken(op)) then l'
          else Paren(Parenthesized(l, 0)), Parenthesized(r, RightPriority(op)))
  }

  lemma {:induction false} ParenthesizedFits(t: Tree, limit: nat)
    ensures Fits(Parenthesized(t, limit), limit) && Strip(Parenthesized(t, limit)) == Strip(t)
    decreases t, if t.Bin? && LeftPriority(t.op) <= limit then 1 else 0
  {
    match t {
      case Const(_) =>
      case Var(_) =>
      case Paren(u) => ParenthesizedFits(u, 0);
      case Suffix(_, p, a) =>
        ParenthesizedFits(p, 0);
        ParenthesizedFits(a, 0);
      case Un(_, u) => ParenthesizedFits(u, UNARY_PRIORITY);
      case Bin(op, l, r) =>
        if LeftPriority(op) <= limit {
          ParenthesizedFits(t, 0);
        } else {
          ParenthesizedFits(l, limit);
          ParenthesizedFits(l, 0);
          ParenthesizedFits(r, RightPriority(op));
        }
    }
  }

  /** No parentheses are added where none are needed. */
  lemma {:induction false} NoneNeeded(t: Tree, limit: nat)
    requires Fits(t, limit)
    ensures Parenthesized(t, limit) == t
  {
    match t {
      case Const(_) =>
      case Var(_) =>
      case Paren(u) => NoneNeeded(u, 0);
      case Suffix(_, p, a) =>
        NoneNeeded(p, 0);
        NoneNeeded(a, 0);
      case Un(_, u) => NoneNeeded(u, UNARY_PRIORITY);
      case Bin(op, l, r) =>
        NoneNeeded(l, limit);
        NoneNeeded(r, RightPriority(op));
    }
  }

  lemma {:induction false} StopsAtEnd(t: Tree)
    ensures StopsAt(t, EndOfStream)
  {
    match t {
      case Un(_, u) => StopsAtEnd(u);
      case Bin(_, _, r) => StopsAtEnd(r);
      case _ =>
    }
  }

  /** Every tree, printed with these parentheses, is read back. */
  lemma PrintParse(t: Tree, room: nat)
    ensures var t' := Parenthesized(t, 0);
      SubExpr(Tokens(t'), 0, room) == (if Inner(t') < room then Got(t', []) else Overflow) && Strip(t') == Strip(t)
  {
    var t' := Parenthesized(t, 0);
    ParenthesizedFits(t, 0);
    StopsAtEnd(t');
    assert Tokens(t') + [] == Tokens(t');
    SubExprComplete(t', [], 0, room);
  }

  lemma SimpleBin(a: Tree, op: BinOp, b: Tree, limit: nat)
    requires a.Const? && b.Const?
    ensures Fits(Bin(op, a, b), limit) <==> LeftPriority(op) > limit
    ensures Inner(Bin(op, a, b)) == 1
    ensures forall op': BinOp :: StopsAt(Bin(op, a, b), BinToken(op')) <==> LeftPriority(op') <= RightPriority(op)
  {
    assert Fits(a, limit) && StopsAt(a, BinToken(op)) && Fits(b, RightPriority(op)) && Inner(a) == Inner(b) == 0;
    forall op': BinOp ensures StopsAt(b, BinToken(op')) {}
  }

  /** Of three simple operands the last two are taken together exactly by a second operator that binds more. */
  lemma Association(a: Tree, op: BinOp, b: Tree, op': BinOp, c: Tree, room: nat)
    requires a.Const? && b.Const? && c.Const? && room > 2
    ensures SubExpr(Tokens(a) + [BinToken(op)] + Tokens(b) + [BinToken(op')] + Tokens(c), 0, room) ==
      Got(if LeftPriority(op') > RightPriority(op) then Bin(op, a, Bin(op', b, c)) else Bin(op', Bin(op, a, b), c), [])
  {
    var s := Tokens(a) + [BinToken(op)] + Tokens(b) + [BinToken(op')] + Tokens(c);
    var t := if LeftPriority(op') > RightPriority(op) then Bin(op, a, Bin(op', b, c)) else Bin(op', Bin(op, a, b), c);
    SimpleBin(a, op, b, 0);
    SimpleBin(b, op', c, RightPriority(op));
    assert Fits(a, 0) && Fits(c, RightPriority(op')) && Inner(a) == Inner(c) == 0;
    assert Fits(t, 0) && Inner(t) <= 2;
    StopsAtEnd(t);
    assert Tokens(t) + [] == s;
    SubExprComplete(t, [], 0, room);
  }

  // ----- the levels of the manual -----

  /** The levels of operators in section 3.4.8 of the manual, the lowest first (lua/doc/manual.html:2424-2450). Unary
      operators are level 11. */
  function Level(op: BinOp): nat {
    match op
    case Or => 1
    case And => 2
    case Lt => 3 case Gt => 3 case Le => 3 case Ge => 3 case Ne => 3 case Eq => 3
    case BOr => 4
    case BXor => 5
    case BAnd => 6
    case Shl => 7 case Shr => 7
    case Concat => 8
    case Add => 9 case Sub => 9
    case Mul => 10 case Div => 10 case IDiv => 10 case Mod => 10
    case Pow => 12
  }

  const UNARY_LEVEL: nat := 11

  predicate RightAssoc(op: BinOp) { op == Concat || op == Pow }

  /** The grammar of the manual, one level of operators after the other: operands of an operator are of higher levels,
      and the one on the side it associates to may be of its own level. A unary operator may also begin the right
      operand of any operator, as in `2^-3`. */
  predicate Layered(t: Tree, n: nat) {
    match t
    case Const(_) => true
    case Var(_) => true
    case Paren(u) => Layered(u, 1)
    case Suffix(_, p, a) => IsPrefix(p) && Layered(p, 1) && Layered(a, 1)
    case Un(_, u) => n <= UNARY_LEVEL && Layered(u, UNARY_LEVEL)
    case Bin(op, l, r) =>
      && Level(op) >= n && Layered(l, if RightAssoc(op) then Level(op) + 1 else Level(op))
      && ((r.Un? && Layered(r, UNARY_LEVEL)) || Layered(r, if RightAssoc(op) then Level(op) else Level(op) + 1))
  }

  /** The limit lets the operators of a level and above through. */
  predicate Passes(limit: nat, n: nat) { forall op: BinOp :: LeftPriority(op) > limit <==> Level(op) >= n }

  /** Whether a tree ends before an operator is decided by its own operator. */
  lemma {:induction false} EndsBefore(t: Tree, op: BinOp, limit: nat)
    requires Fits(t, limit)
    ensures StopsAt(t, BinToken(op)) <==>
      (t.Bin? ==> LeftPriority(op) <= RightPriority(t.op)) && (t.Un? ==> LeftPriority(op) <= UNARY_PRIORITY)
  {
    match t
    case Un(_, u) => EndsBefore(u, op, UNARY_PRIORITY);
    case Bin(o, _, r) => EndsBefore(r, op, RightPriority(o));
    case _ =>
  }

  /** The trees that fit the priorities are those of the manual's grammar. */
  lemma {:induction false} FitsLayered(t: Tree, limit: nat, n: nat)
    requires Passes(limit, n)
    ensures Fits(t, limit) <==> (t.Un? && Layered(t, UNARY_LEVEL)) || Layered(t, n)
  {
    match t
    case Paren(u) => FitsLayered(u, 0, 1);
    case Suffix(_, p, a) =>
      FitsLayered(p, 0, 1);
      FitsLayered(a, 0, 1);
    case Un(_, u) => FitsLayered(u, UNARY_PRIORITY, UNARY_LEVEL);
    case Bin(op, l, r) =>
      FitsLayered(l, limit, n);
      FitsLayered(r, RightPriority(op), if RightAssoc(op) then Level(op) else Level(op) + 1);
      if Level(op) >= n { LeftLayered(op, l, limit, n); }
    case _ =>
  }

  /** What a left operand has to be: its own operator decides. */
  lemma LeftLayered(op: BinOp, l: Tree, limit: nat, n: nat)
    requires Passes(limit, n) && Level(op) >= n
    requires Fits(l, limit) <==> (l.Un? && Layered(l, UNARY_LEVEL)) || Layered(l, n)
    ensures Fits(l, limit) && StopsAt(l, BinToken(op)) <==>
      Layered(l, if RightAssoc(op) then Level(op) + 1 else Level(op))
  {
    var left := if RightAssoc(op) then Level(op) + 1 else Level(op);
    if Fits(l, limit) { EndsBefore(l, op, limit); }
    LowerLevel(l, n, left);
    if l.Un? { LowerLevel(l, UNARY_LEVEL, left); }
    if l.Bin? { OwnLevel(op, l.op); }
  }

  lemma OwnLevel(op: BinOp, o: BinOp)
    ensures LeftPriority(op) <= RightPriority(o) <==> Level(o) >= if RightAssoc(op) then Level(op) + 1 else Level(op)
  {
  }

  /** The level only bounds the operator at the top. */
  lemma LowerLevel(t: Tree, n: nat, n': nat)
    ensures t.Bin? && Level(t.op) >= n && Level(t.op) >= n' ==> Layered(t, n) == Layered(t, n')
    ensures t.Un? && n <= UNARY_LEVEL && n' <= UNARY_LEVEL ==> Layered(t, n) == Layered(t, n')
  {
  }

  /** The parser reads exactly the manual's grammar: from the tokens of any tree of it that tree is built, unless the
      nesting is too deep, and what is built is a tree of it. */
  lemma ReadsManual(s: seq<Token>, t: Tree, room: nat)
    ensures Layered(t, 1) && Inner(t) < room ==> SubExpr(Tokens(t), 0, room) == Got(t, [])
    ensures SubExpr(s, 0, room) == Got(t, []) ==> Layered(t, 1) && Tokens(t) == s
  {
    FitsLayered(t, 0, 1);
    if Layered(t, 1) {
      StopsAtEnd(t);
      assert Tokens(t) + [] == Tokens(t);
      SubExprComplete(t, [], 0, room);
    }
    if SubExpr(s, 0, room) == Got(t, []) {
      SubExprSound(s, 0, room);
      assert Tokens(t) + [] == Tokens(t);
    }
  }

  function Spelled(op: BinOp): Token { if op == Sub then DashSign else if op == BXor then TildeSign else Sign(op) }

  lemma Shapes(op: BinOp, uop: UnOp, l: Tree, r: Tree)
    ensures Tokens(Bin(op, l, r)) == Tokens(l) + [Spelled(op)] + Tokens(r)
    ensures Tokens(Un(uop, l)) == [SpelledUn(uop)] + Tokens(l)
  {
  }

  lemma Leaf(a: int)
    ensures forall n: nat :: Layered(Const(a), n)
    ensures Tokens(Const(a)) == [Constant(a)] && Inner(Const(a)) == 0
  {
  }

  lemma Pair(op: BinOp, a: int, b: int)
    ensures forall n: nat :: Layered(Bin(op, Const(a), Const(b)), n) <==> Level(op) >= n
    ensures Tokens(Bin(op, Const(a), Const(b))) == [Constant(a), Spelled(op), Constant(b)]
    ensures Inner(Bin(op, Const(a), Const(b))) == 1
  {
    Leaf(a);
    Leaf(b);
  }

  /** How three constants group: by the levels, and where they are equal to the side the operator associates to. */
  lemma Grouping(a: int, op: BinOp, b: int, op': BinOp, c: int, room: nat)
    requires room > 2
    ensures SubExpr([Constant(a), Spelled(op), Constant(b), Spelled(op'), Constant(c)], 0, room) ==
      Got(if Level(op') > Level(op) || (Level(op') == Level(op) && RightAssoc(op))
        then Bin(op, Const(a), Bin(op', Const(b), Const(c))) else Bin(op', Bin(op, Const(a), Const(b)), Const(c)), [])
  {
    Leaf(a);
    Leaf(c);
    Pair(op, a, b);
    Pair(op', b, c);
    if Level(op') > Level(op) || (Level(op') == Level(op) && RightAssoc(op)) {
      var r := Bin(op', Const(b), Const(c));
      assert Layered(Bin(op, Const(a), r), 1);
      assert Tokens(Bin(op, Const(a), r)) == [Constant(a), Spelled(op), Constant(b), Spelled(op'), Constant(c)];
      ReadsManual([], Bin(op, Const(a), r), room);
    } else {
      var l := Bin(op, Const(a), Const(b));
      assert Layered(Bin(op', l, Const(c)), 1);
      assert Tokens(Bin(op', l, Const(c))) == [Constant(a), Spelled(op), Constant(b), Spelled(op'), Constant(c)];
      ReadsManual([], Bin(op', l, Const(c)), room);
    }
  }

  function SpelledUn(op: UnOp): Token {
    match op case Minus => DashSign case BNot => TildeSign case Not => NotSign case Len => LenSign
  }

  lemma Single(uop: UnOp, a: int)
    ensures forall n: nat :: Layered(Un(uop, Const(a)), n) <==> UNARY_LEVEL >= n
    ensures Tokens(Un(uop, Const(a))) == [SpelledUn(uop), Constant(a)] && Inner(Un(uop, Const(a))) == 1
  {
    Leaf(a);
  }

  /** A unary operator on the left takes only a power with it. */
  lemma UnaryFirst(uop: UnOp, a: int, op: BinOp, b: int, room: nat)
    requires room > 2
    ensures SubExpr([SpelledUn(uop), Constant(a), Spelled(op), Constant(b)], 0, room) ==
      Got(if op == Pow then Un(uop, Bin(op, Const(a), Const(b))) else Bin(op, Un(uop, Const(a)), Const(b)), [])
  {
    Leaf(b);
    Pair(op, a, b);
    Single(uop, a);
    var u, v := Bin(op, Const(a), Const(b)), Un(uop, Const(a));
    if op == Pow {
      Shapes(op, uop, u, u);
      assert Layered(Un(uop, u), 1) && Tokens(Un(uop, u)) == [SpelledUn(uop), Constant(a), Spelled(op), Constant(b)];
      ReadsManual([], Un(uop, u), room);
    } else {
      Shapes(op, uop, v, Const(b));
      assert Layered(Bin(op, v, Const(b)), 1);
      assert Tokens(Bin(op, v, Const(b))) == [SpelledUn(uop), Constant(a), Spelled(op), Constant(b)];
      ReadsManual([], Bin(op, v, Const(b)), room);
    }
  }

  /** On the right it may follow any operator. */
  lemma UnaryLast(a: int, op: BinOp, uop: UnOp, b: int, room: nat)
    requires room > 2
    ensures SubExpr([Constant(a), Spelled(op), SpelledUn(uop), Constant(b)], 0, room) ==
      Got(Bin(op, Const(a), Un(uop, Const(b))), [])
  {
    Leaf(a);
    Single(uop, b);
    var v := Un(uop, Const(b));
    Shapes(op, uop, Const(a), v);
    assert Layered(Bin(op, Const(a), v), 1);
    assert Tokens(Bin(op, Const(a), v)) == [Constant(a), Spelled(op), SpelledUn(uop), Constant(b)];
    ReadsManual([], Bin(op, Const(a), v), room);
  }

  // ----- the parser itself -----

  const LUAI_MAXCCALLS: nat := 200

  /** The lexer state, as a position in the tokens, and the count of active calls. */
  class LexState {
    const input: seq<Token>
    var pos: nat
    var nCcalls: nat

    predicate Valid()
      reads this
    {
      pos <= |input| && nCcalls < LUAI_MAXCCALLS
    }

    function Rest(): seq<Token>
      requires pos <= |input|
      reads this
    {
      input[pos..]
    }

    function Room(): nat
      requires nCcalls < LUAI_MAXCCALLS
      reads this
    {
      LUAI_MAXCCALLS - 1 - nCcalls
    }

    constructor (input: seq<Token>)
      ensures this.input == input && pos == 0 && nCcalls == 0
    {
      this.input, pos, nCcalls := input, 0, 0;
    }

    method Current() returns (t: Token)
      requires Valid()
      ensures t == Cur(Rest())
    {
      t := if pos < |input| then input[pos] else EndOfStream;
    }

    method Next()
      requires Valid() && pos < |input|
      modifies this`pos
      ensures Valid() && Rest() == old(Rest())[1..]
    {
      pos := pos + 1;
    }

    /** Reads an expression of operators that bind above `limit`, and returns the first one that does not
        (lparser.c:1259-1286). */
    method ParseSubexpr(limit: nat) returns (r: Outcome, op: Option<BinOp>)
      requires Valid()
      modifies this`pos, this`nCcalls
      ensures Agrees(r, SubExpr(old(Rest()), limit, old(Room())))
      ensures r.Built? ==>
        Valid() && nCcalls == old(nCcalls) &&
        Rest() == SubExpr(old(Rest()), limit, old(Room())).rest && op == GetBinOpr(Cur(Rest()))
      decreases |Rest()|, 4
    {
      op := None;
      if nCcalls + 1 >= LUAI_MAXCCALLS {
        return TooDeep, op;
      }
      nCcalls := nCcalls + 1;
      ghost var room := Room();
      ghost var whole := Operators(Rest(), limit, room);
      r := ParseOperand();
      if !r.Built? { return; }
      r, op := ParseOperators(limit, r.tree);
      if r.Built? { nCcalls := nCcalls - 1; }
    }

    /** Reads the operators that bind above `limit`, and their operands, after a first operand (lparser.c:1273-1283). */
    method ParseOperators(limit: nat, v: Tree) returns (r: Outcome, op: Option<BinOp>)
      requires Valid() && nCcalls > 0
      modifies this`pos, this`nCcalls
      ensures Agrees(r, MoreOperators(v, old(Rest()), limit, old(Room())))
      ensures r.Built? ==>
        Valid() && nCcalls == old(nCcalls) &&
        Rest() == MoreOperators(v, old(Rest()), limit, old(Room())).rest && op == GetBinOpr(Cur(Rest()))
      decreases |Rest()|, 3
    {
      ghost var room := Room();
      ghost var whole := MoreOperators(v, Rest(), limit, room);
      r := Built(v);
      var t := Current();
      op := GetBinOpr(t);
      while op.Some? && LeftPriority(op.value) > limit
        invariant Valid() && nCcalls == old(nCcalls) && op == GetBinOpr(Cur(Rest())) && |Rest()| <= |old(Rest())|
        invariant r.Built? && whole == MoreOperators(r.tree, Rest(), limit, room)
        decreases |Rest()|
      {
        Next();
        var r2, nextop := ParseSubexpr(RightPriority(op.value));
        if !r2.Built? { return r2, None; }
        r := Built(Bin(op.value, r.tree, r2.tree));
        op := nextop;
      }
    }

    /** Reads an operand and the unary operators before it (lparser.c:1264-1271). */
    method ParseOperand() returns (r: Outcome)
      requires Valid()
      modifies this`pos, this`nCcalls
      ensures Agrees(r, Head(old(Rest()), old(Room())))
      ensures r.Built? ==> Valid() && nCcalls == old(nCcalls) && Rest() == Head(old(Rest()), old(Room())).rest
      decreases |Rest()|, 3
    {
      var t := Current();
      var uop := GetUnOpr(t);
      if uop.Some? {
        Next();
        var op;
        r, op := ParseSubexpr(UNARY_PRIORITY);
        if r.Built? { r := Built(Un(uop.value, r.tree)); }
      } else {
        r := ParseSimple();
      }
    }

    /** Reads a constant, or a primary expression and its suffixes (lparser.c:1080-1191). */
    method ParseSimple() returns (r: Outcome)
      requires Valid() && GetUnOpr(Cur(Rest())).None?
      modifies this`pos, this`nCcalls
      ensures Agrees(r, Head(old(Rest()), old(Room())))
      ensures r.Built? ==> Valid() && nCcalls == old(nCcalls) && Rest() == Head(old(Rest()), old(Room())).rest
      decreases |Rest()|, 2
    {
      var t := Current();
      if t.Constant? {
        Next();
        r := Built(Const(t.n));
      } else {
        r := ParseSuffixed();
      }
    }

    /** Reads an expression, and the token that closes it. */
    method ParseClosed(close: Token) returns (r: Outcome)
      requires Valid() && |Rest()| > 0 && close != EndOfStream
      modifies this`pos, this`nCcalls
      ensures var p := SubExpr(old(Rest())[1..], 0, old(Room()));
        Agrees(r, if p.Got? && Cur(p.rest) != close then SyntaxError else p) &&
        (r.Built? ==> Valid() && nCcalls == old(nCcalls) && Rest() == p.rest[1..])
      decreases |Rest()|, 0
    {
      Next();
      var op;
      r, op := ParseSubexpr(0);
      if !r.Built? { return; }
      var t := Current();
      if t != close { return Misplaced; }
      Next();
    }

    method ParseSuffixed() returns (r: Outcome)
      requires Valid()
      modifies this`pos, this`nCcalls
      ensures Agrees(r, Suffixed(old(Rest()), old(Room())))
      ensures r.Built? ==> Valid() && nCcalls == old(nCcalls) && Rest() == Suffixed(old(Rest()), old(Room())).rest
      decreases |Rest()|, 1
    {
      ghost var whole := Suffixed(Rest(), Room());
      var t := Current();
      if t.Name? {
        Next();
        r := Built(Var(t.name));
      } else if t == Open {
        r := ParseClosed(Close);
        if !r.Built? { return; }
        r := Built(Paren(r.tree));
      } else {
        return Misplaced;
      }
      t := Current();
      while t == Open || t == OpenIndex
        invariant Valid() && nCcalls == old(nCcalls) && t == Cur(Rest()) && |Rest()| < |old(Rest())|
        invariant r.Built? && whole == MoreSuffixes(r.tree, Rest(), Room())
        decreases |Rest()|
      {
        var kind := if t == Open then Call else Index;
        var arg := ParseClosed(Closes(kind));
        if !arg.Built? { return arg; }
        r := Built(Suffix(kind, r.tree, arg.tree));
        t := Current();
      }
    }
  }

  datatype Outcome = Built(tree: Tree) | Misplaced | TooDeep

  /** The outcome is the one that `spec` says. */
  predicate Agrees(r: Outcome, spec: Parsed) {
    match spec
    case Got(t, _) => r == Built(t)
    case SyntaxError => r == Misplaced
    case Overflow => r == TooDeep
  }
}
