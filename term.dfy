/** The conversions into `Term` and `Term::kind` (`src/term.rs`). */
module Terms {
  import opened Types

  function FromAtom(atom: Atom): (t: Term)
    ensures t.Atom? && t.atom == atom
  {
    Term.Atom(atom)
  }

  function FromPid(pid: Pid): (t: Term)
    ensures t.Pid? && t.pid == pid
  {
    Term.Pid(pid)
  }

  function FromReference(reference: Reference): (t: Term)
    ensures t.Reference? && t.reference == reference
  {
    Term.Reference(reference)
  }

  function FromTuple(elements: seq<Term>): (t: Term)
    ensures t.Tuple? && t.elements == elements
  {
    Term.Tuple(elements)
  }

  /** The kind of a term, one kind per variant; decoders report it in `NodeIsNotAnAtom`. */
  function Kind(t: Term): (k: TermKind)
    ensures k == TermKind.Nil <==> t.Nil?
    ensures k == TermKind.Integer <==> t.Integer?
    ensures k == TermKind.Float <==> t.Float?
    ensures k == TermKind.Atom <==> t.Atom?
    ensures k == TermKind.Pid <==> t.Pid?
    ensures k == TermKind.Reference <==> t.Reference?
    ensures k == TermKind.Tuple <==> t.Tuple?
    ensures k == TermKind.List <==> t.List?
    ensures k == TermKind.Binary <==> t.Binary?
  {
    match t
    case Nil => TermKind.Nil
    case Integer(_) => TermKind.Integer
    case Float(_) => TermKind.Float
    case Atom(_) => TermKind.Atom
    case Pid(_) => TermKind.Pid
    case Reference(_) => TermKind.Reference
    case Tuple(_) => TermKind.Tuple
    case List(_) => TermKind.List
    case Binary(_) => TermKind.Binary
  }
}
