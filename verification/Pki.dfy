/** Replicas that race to create the shared CA in one directory: internal/pki/pki.go. */
module Pki {
  /** A file: absent, part of the n-th generated pair's PEM text (possibly empty), or all of it. A part
      does not parse. */
  datatype File = Absent | Part(id: nat) | Whole(id: nat)

  /** Where a replica stands in LoadOrCreateCA. `tries` counts its calls of loadCA: 0 for the first, then
      up to TRIES in the wait loop. */
  datatype Replica =
    | LoadCert(tries: nat) | LoadKey(tries: nat, seen: File)
    | Create | Generate(id: nat) | Cleanup(id: nat) | KeyWritten(id: nat) | CertOpen(id: nat)
    | Done(cert: nat, key: nat) | Failed

  datatype State = State(cert: File, key: File, replicas: seq<Replica>, next: nat)

  const TRIES := 100

  datatype Action =
    | ReadCert | ReadKey | OpenExcl | OpenFails
    | WriteKey | GenerateFails | RemoveKey | RemoveFails
    | OpenCert | WriteCert | CertFails | Crash | Restart

  datatype Step = Step(i: nat, a: Action)

  /** The directory starts empty or with a complete matching pair. */
  predicate Initial(s: State) {
    s.cert == s.key && (s.key == Absent || (s.key == Whole(0) && s.next == 1))
    && forall i | 0 <= i < |s.replicas| :: s.replicas[i] == LoadCert(0)
  }

  /** A replica whose loadCA failed: the first time it tries to create, later it waits and tries again. */
  function LoadFailed(tries: nat): Replica {
    if tries == 0 then Create else if tries < TRIES then LoadCert(tries + 1) else Failed
  }

  predicate Enabled(s: State, e: Step) {
    e.i < |s.replicas|
    && var r := s.replicas[e.i];
       match e.a
       case ReadCert => r.LoadCert?
       case ReadKey => r.LoadKey?
       case OpenExcl => r.Create?
       case OpenFails => r.Create?
       case WriteKey => r.Generate?
       case GenerateFails => r.Generate?
       case RemoveKey => r.Cleanup?
       case RemoveFails => r.Cleanup?
       case OpenCert => r.KeyWritten?
       case CertFails => r.KeyWritten? || r.CertOpen?
       case WriteCert => r.CertOpen?
       case Crash => !r.Done?
       case Restart => r.Failed?
  }

  function At(s: State, i: nat, r: Replica): State
    requires i < |s.replicas|
  {
    s.(replicas := s.replicas[i := r])
  }

  /** GenerateFails is any error up to and including the write of the key: the lock file is then removed.
      CertFails is an error of the last WriteFile, after which it is not. */
  function Next(s: State, e: Step): State
    requires Enabled(s, e)
  {
    var r := s.replicas[e.i];
    match e.a
    case ReadCert => At(s, e.i, if s.cert == Absent then LoadFailed(r.tries) else LoadKey(r.tries, s.cert))
    case ReadKey =>
      At(s, e.i, if r.seen.Whole? && s.key.Whole? then Done(r.seen.id, s.key.id) else LoadFailed(r.tries))
    case OpenExcl =>
      if s.key == Absent then At(s.(key := Part(s.next), next := s.next + 1), e.i, Generate(s.next))
      else At(s, e.i, LoadCert(1))
    case OpenFails => At(s, e.i, Failed)
    case WriteKey => At(s.(key := Whole(r.id)), e.i, KeyWritten(r.id))
    case GenerateFails => At(s, e.i, Cleanup(r.id))
    case RemoveKey => At(s.(key := Absent), e.i, Failed)
    case RemoveFails => At(s, e.i, Failed)
    case OpenCert => At(s.(cert := Part(r.id)), e.i, CertOpen(r.id))
    case CertFails => At(s, e.i, Failed)
    case WriteCert => At(s.(cert := Whole(r.id)), e.i, Done(r.id, r.id))
    case Crash => At(s, e.i, Failed)
    case Restart => At(s, e.i, LoadCert(0))
  }

  ghost predicate Reaches(s: State, run: seq<Step>, t: State)
    decreases |run|
  {
    if run == [] then t == s else Enabled(s, run[0]) && Reaches(Next(s, run[0]), run[1..], t)
  }

  // ----- what every run keeps -----

  /** The replica holds the lock file. */
  predicate Owns(r: Replica) { r.Generate? || r.Cleanup? || r.KeyWritten? || r.CertOpen? }

  /** What one replica may rely on. */
  predicate Ok(s: State, r: Replica) {
    match r
    case Generate(id) => s.key == Part(id) && s.cert == Absent
    case Cleanup(id) => s.key == Part(id) && s.cert == Absent
    case KeyWritten(id) => s.key == Whole(id) && s.cert == Absent
    case CertOpen(id) => s.key == Whole(id) && s.cert == Part(id)
    case LoadKey(_, seen) => seen.Whole? ==> s.cert == seen && s.key == seen
    case Done(cert, key) => s.cert == Whole(cert) && s.key == Whole(key)
    case _ => true
  }

  /** A certificate, even a partial one, implies the complete key that belongs to it. */
  predicate CertHasKey(s: State) { s.cert != Absent ==> s.key == Whole(s.cert.id) }

  predicate Inv(s: State) {
    CertHasKey(s)
    && (forall i | 0 <= i < |s.replicas| :: Ok(s, s.replicas[i]))
    && forall i, j | 0 <= i < j < |s.replicas| :: !Owns(s.replicas[i]) || !Owns(s.replicas[j])
  }

  lemma StepKeeps(s: State, e: Step)
    requires Inv(s) && Enabled(s, e)
    ensures Inv(Next(s, e))
  {
    var t := Next(s, e);
    assert Ok(s, s.replicas[e.i]);
    forall i | 0 <= i < |t.replicas| ensures Ok(t, t.replicas[i]) {
      assert Ok(s, s.replicas[i]);
    }
  }

  lemma {:induction false} RunKeeps(s: State, run: seq<Step>, t: State)
    requires Inv(s) && Reaches(s, run, t)
    ensures Inv(t)
    decreases |run|
  {
    hide Inv, Next, Enabled;
    if run != [] {
      StepKeeps(s, run[0]);
      RunKeeps(Next(s, run[0]), run[1..], t);
    }
  }

  /** All replicas that return successfully hold one and the same matching pair, the one on disk. */
  lemma OneCA(s: State, run: seq<Step>, t: State, i: nat, j: nat)
    requires Initial(s) && Reaches(s, run, t)
    requires i < |t.replicas| && t.replicas[i].Done? && j < |t.replicas| && t.replicas[j].Done?
    ensures t.replicas[i] == t.replicas[j]
    ensures t.replicas[i].cert == t.replicas[i].key && t.cert == t.key == Whole(t.replicas[i].key)
  {
    hide Reaches;
    RunKeeps(s, run, t);
    assert Ok(t, t.replicas[i]) && Ok(t, t.replicas[j]);
  }

  lemma {:induction false} FilesStay(s: State, run: seq<Step>, t: State)
    requires Inv(s) && s.cert != Absent && Reaches(s, run, t)
    ensures t.key == s.key && (t.cert == s.cert || t.cert == Whole(s.cert.id))
    decreases |run|
  {
    hide Inv;
    if run != [] {
      var m := Next(s, run[0]);
      StepKeeps(s, run[0]);
      assert Ok(s, s.replicas[run[0].i]) && CertHasKey(s) by { InvAt(s, run[0].i); }
      FilesStay(m, run[1..], t);
    }
  }

  lemma InvAt(s: State, i: nat)
    requires Inv(s) && i < |s.replicas|
    ensures Ok(s, s.replicas[i]) && CertHasKey(s)
  {}

  /** As soon as ca.crt is there, ca.key is complete, matches it and never changes again; and a complete
      ca.crt never changes either. */
  lemma CertIsFinal(s: State, run1: seq<Step>, t: State, run2: seq<Step>, u: State)
    requires Initial(s) && Reaches(s, run1, t) && t.cert != Absent && Reaches(t, run2, u)
    ensures t.key == Whole(t.cert.id) && u.key == t.key
    ensures t.cert.Whole? ==> u.cert == t.cert
  {
    hide Reaches;
    RunKeeps(s, run1, t);
    FilesStay(t, run2, u);
  }

  // ----- when nobody can succeed any more -----

  /** The lock file is left behind: no complete pair, and nobody who still works on one. */
  predicate Abandoned(s: State) {
    s.key != Absent && !(s.cert.Whole? && s.key.Whole?) && forall i | 0 <= i < |s.replicas| :: !Owns(s.replicas[i])
  }

  /** An abandoned lock file stays: from then on no replica, not even a restarted one, gets a CA. */
  lemma {:induction false} AbandonedForGood(s: State, run: seq<Step>, t: State)
    requires Inv(s) && Abandoned(s) && Reaches(s, run, t)
    ensures Abandoned(t) && forall i | 0 <= i < |t.replicas| :: !t.replicas[i].Done?
    decreases |run|
  {
    forall i | 0 <= i < |s.replicas| ensures !s.replicas[i].Done? { assert Ok(s, s.replicas[i]); }
    if run != [] {
      StepKeeps(s, run[0]);
      assert Ok(s, s.replicas[run[0].i]);
      AbandonedForGood(Next(s, run[0]), run[1..], t);
    }
  }

  /** The owner of the lock file that stops without a CA leaves it behind exactly when it did not remove
      it: after its own errors before the certificate it does, unless the removal fails; after a failed
      write of ca.crt, or a crash, it does not. */
  lemma WhoAbandons(s: State, e: Step)
    requires Inv(s) && Enabled(s, e) && Owns(s.replicas[e.i]) && Next(s, e).replicas[e.i] == Failed
    ensures Abandoned(Next(s, e)) <==> e.a != RemoveKey
  {
    assert Ok(s, s.replicas[e.i]);
  }

  // ----- who does succeed -----

  function StepsOf(run: seq<Step>, i: nat): nat {
    if run == [] then 0 else (if run[0].i == i then 1 else 0) + StepsOf(run[1..], i)
  }

  /** How many steps a replica still takes until it holds the pair on disk, if nothing goes wrong for it. */
  function Left(r: Replica): nat {
    match r
    case Generate(_) => 3
    case KeyWritten(_) => 2
    case CertOpen(_) => 1
    case LoadCert(_) => 2
    case LoadKey(_, _) => 1
    case _ => 0
  }

  /** A replica that writes the pair, or reads one that is complete, and will return it. */
  predicate OnItsWay(s: State, i: nat, id: nat) {
    i < |s.replicas|
    && match s.replicas[i]
       case Generate(n) => n == id
       case KeyWritten(n) => n == id
       case CertOpen(n) => n == id
       case LoadCert(_) => s.cert == Whole(id) && s.key == Whole(id)
       case LoadKey(_, seen) => seen == Whole(id) && s.cert == Whole(id) && s.key == Whole(id)
       case Done(cert, key) => cert == id && key == id
       case _ => false
  }

  /** Nothing goes wrong for replica `i` itself, whatever happens to others. */
  predicate Unharmed(run: seq<Step>, i: nat) {
    forall e | e in run && e.i == i :: e.a !in {Crash, GenerateFails, CertFails}
  }

  lemma OneStepOn(s: State, e: Step, i: nat, id: nat)
    requires Inv(s) && Enabled(s, e) && OnItsWay(s, i, id) && (e.i == i ==> e.a !in {Crash, GenerateFails, CertFails})
    ensures OnItsWay(Next(s, e), i, id)
    ensures e.i == i ==> Left(Next(s, e).replicas[i]) + 1 == Left(s.replicas[i])
    ensures e.i != i ==> Left(Next(s, e).replicas[i]) == Left(s.replicas[i])
  {
    assert Ok(s, s.replicas[e.i]) && Ok(s, s.replicas[i]);
  }

  /** The owner of the lock file that takes its three steps, and a waiting replica that takes two when the pair
      is complete, return that pair: no interleaving with other replicas, failing or not, keeps them from it. */
  lemma {:induction false} GetsTheCA(s: State, run: seq<Step>, t: State, i: nat, id: nat)
    requires Inv(s) && OnItsWay(s, i, id) && Reaches(s, run, t) && Unharmed(run, i)
    requires StepsOf(run, i) >= Left(s.replicas[i])
    ensures i < |t.replicas| && t.replicas[i] == Done(id, id) && t.cert == t.key == Whole(id)
    decreases |run|
  {
    hide Next, Enabled, Ok, Left;
    if run == [] {
      NoneLeft(s, i, id);
    } else {
      StepKeeps(s, run[0]);
      OneStepOn(s, run[0], i, id);
      hide Inv, OnItsWay;
      assert run[0] in run;
      GetsTheCA(Next(s, run[0]), run[1..], t, i, id);
    }
  }

  lemma NoneLeft(s: State, i: nat, id: nat)
    requires Inv(s) && OnItsWay(s, i, id) && Left(s.replicas[i]) == 0
    ensures s.replicas[i] == Done(id, id) && s.cert == s.key == Whole(id)
  {
    assert Ok(s, s.replicas[i]);
  }

  /** So a replica that lost the race obtains the winner's CA: it only has to be alive, not yet out of tries and
      at a new try when the winner has returned. */
  lemma LoserGetsWinnersCA(s: State, run1: seq<Step>, t: State, run2: seq<Step>, u: State, w: nat, i: nat)
    requires Initial(s) && Reaches(s, run1, t) && Reaches(t, run2, u)
    requires w < |t.replicas| && t.replicas[w].Done? && i < |t.replicas| && t.replicas[i].LoadCert?
    requires Unharmed(run2, i) && StepsOf(run2, i) >= 2
    ensures i < |u.replicas| && u.replicas[i] == t.replicas[w]
  {
    hide Reaches, Unharmed, StepsOf;
    RunKeeps(s, run1, t);
    assert Ok(t, t.replicas[w]);
    OneCA(s, run1, t, w, w);
    GetsTheCA(t, run2, u, i, t.replicas[w].cert);
  }
}
