/** scripts/init-db.js: the migration file is cut into statements at every
    ';', blank pieces are dropped and each remaining piece is trimmed and given
    its ';' back; the statements are then sent one at a time, and an error
    either lets the run go on to the next statement or ends it. The database
    calls are an input: the error message each statement's call ends with, if
    any (a returned error and a thrown one are treated alike). */
module InitDb {
  import opened Wrappers
  import opened Text

  /** `stmt.trim().length > 0`, stated as "not all white space"
      (`Text.TrimEmptyIffBlank` is the equivalence). */
  predicate NonBlankPiece(p: string) {
    !IsBlank(p)
  }

  lemma NonBlankPieceIsTrimmed(p: string)
    ensures NonBlankPiece(p) <==> |Trim(p)| > 0
  {
    TrimEmptyIffBlank(p);
  }

  /** The number of pieces that are not all white space. */
  function CountNonBlank(pieces: seq<string>): nat {
    if |pieces| == 0 then 0
    else (if NonBlankPiece(pieces[0]) then 1 else 0) + CountNonBlank(pieces[1..])
  }

  /** `.filter(stmt => stmt.trim().length > 0)`. */
  function NonBlank(pieces: seq<string>): (r: seq<string>)
    ensures |r| == CountNonBlank(pieces)
    ensures forall i :: 0 <= i < |r| ==> NonBlankPiece(r[i]) && r[i] in pieces
    ensures forall i :: 0 <= i < |pieces| && NonBlankPiece(pieces[i]) ==> pieces[i] in r
  {
    if |pieces| == 0 then []
    else
      var rest := NonBlank(pieces[1..]);
      assert forall i :: 1 <= i < |pieces| ==> pieces[i] == pieces[1..][i - 1];
      if NonBlankPiece(pieces[0]) then [pieces[0]] + rest else rest
  }

  /** The filter keeps the order of the pieces: filtering two parts one after
      the other is filtering the whole. */
  lemma {:induction false} NonBlankConcat(a: seq<string>, b: seq<string>)
    ensures NonBlank(a + b) == NonBlank(a) + NonBlank(b)
  {
    if |a| > 0 {
      assert (a + b)[1..] == a[1..] + b;
      NonBlankConcat(a[1..], b);
    } else {
      assert a + b == b;
    }
  }

  /** `.map(stmt => stmt.trim() + ';')`. */
  function Terminated(pieces: seq<string>): (r: seq<string>)
    ensures |r| == |pieces|
    ensures forall i :: 0 <= i < |pieces| ==> r[i] == Trim(pieces[i]) + ";"
  {
    seq(|pieces|, i requires 0 <= i < |pieces| => Trim(pieces[i]) + ";")
  }

  /** A statement is never blank: it starts with a character that is not white
      space, ends with its one ';', and holds no other ';'. */
  predicate WellFormedStatement(st: string) {
    |st| >= 2 && st[|st| - 1] == ';' && ';' !in st[..|st| - 1] && !IsJsSpace(st[0])
  }

  /** Trimming and terminating non-blank pieces without ';' gives well-formed
      statements. */
  lemma TerminatedWellFormed(pieces: seq<string>)
    requires forall i :: 0 <= i < |pieces| ==> NonBlankPiece(pieces[i]) && ';' !in pieces[i]
    ensures forall i :: 0 <= i < |pieces| ==> WellFormedStatement(Terminated(pieces)[i])
  {
    forall i | 0 <= i < |pieces|
      ensures WellFormedStatement(Terminated(pieces)[i])
    {
      var p := pieces[i];
      var t := Trim(p);
      TrimAvoids(p, ';');
      assert TrimStart(p)[..|t|] == t;
      var st := Terminated(pieces)[i];
      assert st == t + ";";
      assert st[..|st| - 1] == t;
    }
  }

  /** The statements of a migration file: as many as there are non-blank
      pieces between the ';'s, each well formed. */
  function Statements(sql: string): (r: seq<string>)
    ensures |r| == CountNonBlank(Split(sql, ';'))
    ensures forall i :: 0 <= i < |r| ==> WellFormedStatement(r[i])
  {
    TerminatedWellFormed(NonBlank(Split(sql, ';')));
    Terminated(NonBlank(Split(sql, ';')))
  }

  /** Cutting a text that was put together from pieces without ';' gives back
      its non-blank pieces, in order, each trimmed and terminated. */
  lemma StatementsOfPieces(parts: seq<string>)
    requires |parts| >= 1
    requires forall i :: 0 <= i < |parts| ==> ';' !in parts[i]
    ensures Statements(Join(parts, ";")) == Terminated(NonBlank(parts))
  {
    SplitJoin(parts, ';');
  }

  /** The cut ignores quoting: a ';' inside a string literal of one statement
      (the text `p;q`, neither half blank) makes two statements of it. */
  lemma NaiveSplit(p: string, q: string)
    requires ';' !in p && ';' !in q
    requires NonBlankPiece(p) && NonBlankPiece(q)
    ensures var st := Statements(p + ";" + q);
      |st| == 2 && st[0] == Trim(p) + ";" && st[1] == Trim(q) + ";"
  {
    StatementsOfTwo(p, q);
    NonBlankTwo(p, q);
    var kept := NonBlank([p, q]);
    assert kept[0] == p && kept[1] == q;
  }

  lemma NonBlankTwo(p: string, q: string)
    requires NonBlankPiece(p) && NonBlankPiece(q)
    ensures NonBlank([p, q]) == [p, q]
  {
    NonBlankKeepsAll([p, q]);
  }

  lemma StatementsOfTwo(p: string, q: string)
    requires ';' !in p && ';' !in q
    ensures Statements(p + ";" + q) == Terminated(NonBlank([p, q]))
  {
    JoinTwo(p, q);
    StatementsOfPieces([p, q]);
  }

  lemma JoinTwo(p: string, q: string)
    ensures Join([p, q], ";") == p + ";" + q
  {
    assert [p, q][1..] == [q];
  }

  /** With no blank piece the filter keeps everything. */
  lemma {:induction false} NonBlankKeepsAll(parts: seq<string>)
    requires forall i :: 0 <= i < |parts| ==> NonBlankPiece(parts[i])
    ensures NonBlank(parts) == parts
  {
    if |parts| > 0 {
      NonBlankKeepsAll(parts[1..]);
      assert [parts[0]] + parts[1..] == parts;
    }
  }

  /** A trailing ';' followed by a line break adds no statement. */
  lemma TrailingTerminator(body: seq<string>)
    requires |body| >= 1
    requires forall i :: 0 <= i < |body| ==> ';' !in body[i]
    ensures Statements(Join(body + ["\n"], ";")) == Statements(Join(body, ";"))
  {
    TrailingLineBreakDropped(body);
    ForallConcat(body, "\n");
    StatementsOfPieces(body + ["\n"]);
    StatementsOfPieces(body);
    assert Terminated(NonBlank(body + ["\n"])) == Terminated(NonBlank(body));
  }

  lemma TrailingLineBreakDropped(body: seq<string>)
    ensures NonBlank(body + ["\n"]) == NonBlank(body)
  {
    NonBlankConcat(body, ["\n"]);
    assert IsJsSpace("\n"[0]);
    assert ["\n"][1..] == [];
    assert NonBlank(body) + [] == NonBlank(body);
  }

  lemma ForallConcat(body: seq<string>, last: string)
    requires forall i :: 0 <= i < |body| ==> ';' !in body[i]
    requires ';' !in last
    ensures forall i :: 0 <= i < |body + [last]| ==> ';' !in (body + [last])[i]
  {
  }

  /** The messages after which the script goes on. */
  predicate Continuable(msg: string) {
    Includes(msg, "already exists") || Includes(msg, "exec_sql")
    || Includes(msg, "function") || Includes(msg, "permission denied")
  }

  /** How one statement went. */
  datatype Verdict =
    | Applied
    | AlreadyExists(msg: string)
    | Ignored(msg: string)
    | Fatal(msg: string)

  /** The reply to one statement: no error, an error that says the object
      already exists (skipped without a throw), another error that is
      continuable (logged after the throw, then `continue`), or a fatal one. */
  function Classify(reply: Option<string>): (v: Verdict)
    ensures reply.None? <==> v == Applied
    ensures v.Fatal? <==> reply.Some? && !Continuable(reply.value)
    ensures v.AlreadyExists? ==> Includes(reply.value, "already exists")
  {
    match reply
    case None => Applied
    case Some(m) =>
      if Includes(m, "already exists") then AlreadyExists(m)
      else if Continuable(m) then Ignored(m)
      else Fatal(m)
  }

  /** The loop over the statements. `exec(i)` is the error the call for
      statement i ends with. Every statement is sent until the first fatal
      reply, which is rethrown and ends the run; returned is one verdict per
      statement sent, and the fatal message if there was one. */
  method RunMigration(statements: seq<string>, exec: nat -> Option<string>)
    returns (log: seq<Verdict>, fatal: Option<string>)
    ensures |log| <= |statements|
    ensures forall i :: 0 <= i < |log| ==> log[i] == Classify(exec(i))
    ensures fatal.None? ==> |log| == |statements| && forall i :: 0 <= i < |log| ==> !log[i].Fatal?
    ensures fatal.Some? ==> |log| >= 1 && log[|log| - 1] == Fatal(fatal.value)
                            && forall i :: 0 <= i < |log| - 1 ==> !log[i].Fatal?
  {
    log := [];
    fatal := None;
    var i := 0;
    while i < |statements|
      invariant 0 <= i <= |statements| && |log| == i
      invariant forall j :: 0 <= j < i ==> log[j] == Classify(exec(j)) && !log[j].Fatal?
    {
      var v := Classify(exec(i));
      log := log + [v];
      if v.Fatal? {
        fatal := Some(v.msg);
        return;
      }
      i := i + 1;
    }
  }

  /** When `exec_sql` itself is missing every call fails with a message naming
      it; the run then goes through every statement and ends without a fatal
      error, although no statement was applied. */
  lemma MissingExecSqlCompletes(n: nat, exec: nat -> Option<string>, i: nat)
    requires i < n
    requires forall j :: 0 <= j < n ==> exec(j).Some? && Includes(exec(j).value, "exec_sql")
    ensures Classify(exec(i)) != Applied && !Classify(exec(i)).Fatal?
  {
  }

  /** The migration loop run with `exec_sql` missing: every statement is sent,
      the run ends without a fatal error, and no statement is applied. */
  method MigrateWithoutExecSql(statements: seq<string>, exec: nat -> Option<string>)
    returns (log: seq<Verdict>, fatal: Option<string>)
    requires forall j :: 0 <= j < |statements| ==> exec(j).Some? && Includes(exec(j).value, "exec_sql")
    ensures fatal.None? && |log| == |statements|
    ensures forall i :: 0 <= i < |log| ==> log[i] == Classify(exec(i)) && log[i] != Applied
  {
    log, fatal := RunMigration(statements, exec);
    forall i | 0 <= i < |log|
      ensures log[i] != Applied && !log[i].Fatal?
    {
      MissingExecSqlCompletes(|statements|, exec, i);
    }
  }
}
