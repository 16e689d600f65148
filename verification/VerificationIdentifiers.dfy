/** How a verification identifier is stored: core/verification_identifier.go. */
module VerificationIdentifiers {
  import opened Wrappers

  /** A hash may fail; the built-in one does not. */
  datatype Rule = Plain | Hashed(hash: string -> Option<string>)

  datatype Override = Override(prefix: string, rule: Rule)

  datatype Config = Config(rule: Rule, overrides: seq<Override>)

  /** The rule of the first override whose prefix fits, or the default. */
  function RuleFor(c: Config, id: string): Rule
    decreases |c.overrides|
  {
    if c.overrides == [] then c.rule
    else if c.overrides[0].prefix <= id then c.overrides[0].rule
    else RuleFor(c.(overrides := c.overrides[1..]), id)
  }

  function Stored(c: Config, id: string): Option<string> {
    match RuleFor(c, id)
    case Plain => Some(id)
    case Hashed(hash) => hash(id)
  }

  /** Override `i` decides: it is the first whose prefix the identifier has. */
  predicate Decides(c: Config, id: string, i: nat) {
    i < |c.overrides| && c.overrides[i].prefix <= id && forall j | 0 <= j < i :: !(c.overrides[j].prefix <= id)
  }

  predicate NoneDecides(c: Config, id: string) {
    forall j | 0 <= j < |c.overrides| :: !(c.overrides[j].prefix <= id)
  }

  lemma {:induction false} RuleIsFirst(c: Config, id: string, i: nat)
    ensures Decides(c, id, i) ==> RuleFor(c, id) == c.overrides[i].rule
    ensures NoneDecides(c, id) ==> RuleFor(c, id) == c.rule
    decreases |c.overrides|
  {
    if c.overrides != [] && !(c.overrides[0].prefix <= id) {
      var rest := c.(overrides := c.overrides[1..]);
      assert forall j | 0 <= j < |rest.overrides| :: rest.overrides[j] == c.overrides[j + 1];
      RuleIsFirst(rest, id, if i > 0 then i - 1 else 0);
    }
  }

  /** What a rule makes of an identifier: itself, or its hash. */
  predicate StoredBy(rule: Rule, id: string, stored: Option<string>) {
    (rule.Plain? ==> stored == Some(id)) && (rule.Hashed? ==> stored == rule.hash(id))
  }

  /** The forms looked for: the stored form first, the identifier itself among them, and no other. */
  lemma FormsAre(c: Config, id: string)
    ensures ToTry(c, id).None? <==> Stored(c, id).None?
    ensures ToTry(c, id).Some? ==>
              var forms := ToTry(c, id).value;
              && forms != [] && forms[0] == Stored(c, id).value && id in forms
              && (forall i | 0 <= i < |forms| :: forms[i] == id || i == 0)
              && forall i, j | 0 <= i < j < |forms| :: forms[i] != forms[j]
  {
    if ToTry(c, id).Some? { assert ToTry(c, id).value[|ToTry(c, id).value| - 1] == id; }
  }

  method ProcessVerificationIdentifier(c: Config, id: string) returns (stored: Option<string>, nonPlain: bool)
    ensures stored == Stored(c, id) && nonPlain == RuleFor(c, id).Hashed?
    ensures forall i: nat | i < |c.overrides| && Decides(c, id, i) ::
              StoredBy(c.overrides[i].rule, id, stored) && nonPlain == c.overrides[i].rule.Hashed?
    ensures NoneDecides(c, id) ==> StoredBy(c.rule, id, stored) && nonPlain == c.rule.Hashed?
  {
    forall i: nat | i < |c.overrides| && Decides(c, id, i) ensures RuleFor(c, id) == c.overrides[i].rule {
      RuleIsFirst(c, id, i);
    }
    RuleIsFirst(c, id, 0);
    var rule := c.rule;
    var i := 0;
    while i < |c.overrides|
      invariant 0 <= i <= |c.overrides|
      invariant RuleFor(c, id) == RuleFor(c.(overrides := c.overrides[i..]), id)
      invariant rule == c.rule
    {
      if c.overrides[i].prefix <= id {
        rule := c.overrides[i].rule;
        break;
      }
      assert c.overrides[i..][1..] == c.overrides[i + 1..];
      i := i + 1;
    }
    match rule
    case Plain => return Some(id), false;
    case Hashed(hash) => return hash(id), true;
  }

  /** The stored forms to look for: the processed one, then the plain one if it differs. */
  function ToTry(c: Config, id: string): Option<seq<string>> {
    match Stored(c, id)
    case None => None
    case Some(stored) => Some(if stored != id then [stored, id] else [stored])
  }

  ghost predicate AllPlain(c: Config) {
    forall id :: RuleFor(c, id).Plain?
  }
}
