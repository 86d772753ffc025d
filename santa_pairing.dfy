/**
 * Who gives to whom in secret_santa.py: the participant list is shuffled in
 * place, and then the participant at position `i` is told the name of the
 * participant at position `(i + 1) % N`.
 */
module SantaPairing {

  /** One `[name, email]` entry of the participant list. */
  datatype Participant = Participant(name: string, email: string)

  /**
   * The in-place shuffle of the participant list (secret_santa.py:129), as CPython performs it: for `i` from
   * `N - 1` down to 1, swap entry `i` with an entry `j` drawn from `0..i`.
   * The random source is the oracle `draw`; whatever it answers, `j` is
   * taken into range as `randbelow(i + 1)` guarantees. Whole entries move,
   * so the result is a permutation of the input and every name keeps its
   * email.
   */
  method Shuffle(a: array<Participant>, draw: nat -> nat)
    modifies a
    ensures multiset(a[..]) == multiset(old(a[..]))
    ensures forall k :: 0 <= k < a.Length ==> a[k] in old(a[..])
  {
    var i := a.Length - 1;
    while i > 0
      invariant -1 <= i < a.Length
      invariant multiset(a[..]) == multiset(old(a[..]))
    {
      var j := draw(i) % (i + 1);
      a[i], a[j] := a[j], a[i];
      i := i - 1;
    }
    forall k | 0 <= k < a.Length
      ensures a[k] in old(a[..])
    {
      assert a[k] in multiset(a[..]);
    }
  }

  /** The position whose name participant `i` receives: `(i + 1) % n`. */
  function Next(i: nat, n: nat): (j: nat)
    requires i < n
    ensures j < n
  {
    (i + 1) % n
  }

  /** `Next` steps one place forward and wraps from the last position to the first. */
  lemma NextStep(i: nat, n: nat)
    requires i < n
    ensures Next(i, n) == if i + 1 < n then i + 1 else 0
  {
  }

  /** With at least two participants nobody draws their own position. */
  lemma NoSelfAssignment(i: nat, n: nat)
    requires 2 <= n && i < n
    ensures Next(i, n) != i
  {
    NextStep(i, n);
  }

  /** The position reached from `i` after following `Next` `k` times. */
  function Follow(i: nat, k: nat, n: nat): (j: nat)
    requires i < n
    ensures j < n
  {
    if k == 0 then i else Next(Follow(i, k - 1, n), n)
  }

  /** Within one round, following `Next` `k` times moves `k` places forward, wrapping once at most. */
  lemma {:induction false} WithinOneRound(i: nat, k: nat, n: nat)
    requires i < n && k <= n
    ensures Follow(i, k, n) == if i + k < n then i + k else i + k - n
  {
    if k > 0 {
      WithinOneRound(i, k - 1, n);
      NextStep(Follow(i, k - 1, n), n);
    }
  }

  /** How many steps forward position `j` lies from position `i`. */
  function Distance(i: nat, j: nat, n: nat): (k: nat)
    requires i < n && j < n
    ensures k < n
  {
    if i <= j then j - i else j + n - i
  }

  /**
   * The assignment is one cycle through all `n` participants: starting from
   * any position, the first `n` steps visit pairwise different positions,
   * every position is among them, and step `n` is back at the start.
   */
  lemma SingleCycle(i: nat, n: nat)
    requires i < n
    ensures Follow(i, n, n) == i
    ensures forall k1, k2 :: 0 <= k1 < k2 < n ==> Follow(i, k1, n) != Follow(i, k2, n)
    ensures forall j :: 0 <= j < n ==> Follow(i, Distance(i, j, n), n) == j
  {
    WithinOneRound(i, n, n);
    forall k | 0 <= k <= n
      ensures Follow(i, k, n) == if i + k < n then i + k else i + k - n
    {
      WithinOneRound(i, k, n);
    }
  }

  /** The position that draws position `j`'s name. */
  function Giver(j: nat, n: nat): (i: nat)
    requires j < n
    ensures i < n && Next(i, n) == j
  {
    var i := if j == 0 then n - 1 else j - 1;
    NextStep(i, n);
    i
  }

  /** Every participant's name is drawn by exactly one position. */
  lemma GiverUnique(i: nat, j: nat, n: nat)
    requires i < n && j < n
    ensures Next(i, n) == j <==> i == Giver(j, n)
  {
    NextStep(i, n);
  }

  /** The greeting of the email: "Hola! Tu amigo invisible es: <name>" and a Christmas line. */
  function Body(recipient: string): (body: string)
    ensures |body| == |BodyHead| + |recipient| + |BodyTail|
    ensures body[|BodyHead|..|BodyHead| + |recipient|] == recipient
  {
    BodyHead + recipient + BodyTail
  }

  const BodyHead: string := "Hola! Tu amigo invisible es: "
  const BodyTail: string := "\n\U{A1}Feliz Navidad!"

  /** The sender, receiving address and drawn name passed to one send (secret_santa.py:70). */
  datatype Email = Email(sender: string, receiver: string, recipient: string)

  /**
   * The calls of the first `k` iterations of the send loop, in order:
   * participant `i` is written to at their own address and told the name at
   * position `Next(i, N)`.
   */
  function Messages(sender: string, ps: seq<Participant>, k: nat): (mails: seq<Email>)
    requires k <= |ps|
    ensures |mails| == k
  {
    if k == 0 then []
    else Messages(sender, ps, k - 1) + [Email(sender, ps[k - 1].email, ps[Next(k - 1, |ps|)].name)]
  }

  /** The `i`-th call writes to participant `i` with the name at `Next(i, N)`. */
  lemma {:induction false} MessageAt(sender: string, ps: seq<Participant>, k: nat, i: nat)
    requires i < k <= |ps|
    ensures Messages(sender, ps, k)[i] == Email(sender, ps[i].email, ps[Next(i, |ps|)].name)
  {
    if i < k - 1 {
      MessageAt(sender, ps, k - 1, i);
    }
  }

  /** Every call of a whole round, position by position. */
  lemma RoundMessages(sender: string, ps: seq<Participant>)
    ensures forall i :: 0 <= i < |ps| ==>
              Messages(sender, ps, |ps|)[i] == Email(sender, ps[i].email, ps[Next(i, |ps|)].name)
  {
    forall i | 0 <= i < |ps| {
      MessageAt(sender, ps, |ps|, i);
    }
  }

  /** The calls of the whole send loop: one per participant, in list order. */
  function Assignment(sender: string, ps: seq<Participant>): (mails: seq<Email>)
    ensures |mails| == |ps|
    ensures forall i :: 0 <= i < |ps| ==>
              mails[i] == Email(sender, ps[i].email, ps[Next(i, |ps|)].name)
  {
    RoundMessages(sender, ps);
    Messages(sender, ps, |ps|)
  }

  /**
   * With distinct names, nobody is told their own name, and each name is
   * told to exactly one participant.
   */
  lemma AssignmentIsDerangement(sender: string, ps: seq<Participant>)
    requires |ps| >= 2
    requires forall i, j :: 0 <= i < j < |ps| ==> ps[i].name != ps[j].name
    ensures forall i :: 0 <= i < |ps| ==> Assignment(sender, ps)[i].recipient != ps[i].name
    ensures forall i, j :: 0 <= i < j < |ps| ==>
              Assignment(sender, ps)[i].recipient != Assignment(sender, ps)[j].recipient
  {
    var n := |ps|;
    forall i | 0 <= i < n
      ensures Assignment(sender, ps)[i].recipient != ps[i].name
    {
      NoSelfAssignment(i, n);
    }
    forall i, j | 0 <= i < j < n
      ensures Assignment(sender, ps)[i].recipient != Assignment(sender, ps)[j].recipient
    {
      GiverUnique(i, Next(j, n), n);
      GiverUnique(j, Next(j, n), n);
    }
  }
}
