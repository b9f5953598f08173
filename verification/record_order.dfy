/** Does it matter in which order a node hears two claims? */
module RecordOrder {
  import opened Claims
  import opened Handlers
  import opened NodeLaws

  type Records = map<Name, Claim>

  function AfterAlive(m: Records, a: Claim): Records {
    if a.dominant <= Floor(m, a.name) then m else m[a.name := a]
  }

  /** A death at or above the incarnation of a live record. */
  predicate Reaches(m: Records, d: Claim) {
    d.name in m && m[d.name].state != Dead && d.dominant >= m[d.name].dominant
  }

  function AfterDeath(m: Records, d: Claim): Records {
    if Reaches(m, d) then m[d.name := d] else m
  }

  /** The records of `self` after hearing c. */
  function Told(self: Name, m: Records, c: Claim): Records {
    if c.state == Alive then AfterAlive(m, c)
    else if c.name == self then m
    else AfterDeath(m, c)
  }

  lemma MergeTells(l: Node, c: Claim, needBc: bool, ch: Choice)
    requires c.state != Suspect
    ensures Merge(l, c, needBc, ch).records == Told(l.conf.name, l.records, c)
    ensures Merge(l, c, needBc, ch).conf == l.conf
  {}

  /** An alive claim that turns an unknown or dead node up, and a death no older than it:
      heard first, such a death is lost. */
  predicate Collide(m: Records, a: Claim, d: Claim) {
    && (a.name in m ==> m[a.name].state == Dead)
    && Floor(m, a.name) < a.dominant <= d.dominant
  }

  /** Two claims of which the one heard first decides what is recorded: different alive
      claims at one new incarnation, different deaths of a live record, or a collision. */
  predicate Clash(self: Name, m: Records, c: Claim, e: Claim) {
    && c.name == e.name && c != e
    && if c.state == Alive && e.state == Alive then c.dominant == e.dominant > Floor(m, c.name)
       else
         && c.name != self
         && if c.state != Alive && e.state != Alive then Reaches(m, c) && Reaches(m, e)
            else if c.state == Alive then Collide(m, c, e)
            else Collide(m, e, c)
  }

  lemma AlivesCommute(m: Records, a: Claim, b: Claim)
    requires a.name == b.name
    ensures AfterAlive(AfterAlive(m, a), b) == AfterAlive(AfterAlive(m, b), a)
            <==> a == b || !(a.dominant == b.dominant > Floor(m, a.name))
  {
    if a != b && a.dominant == b.dominant > Floor(m, a.name) {
      assert AfterAlive(AfterAlive(m, a), b)[a.name] == a && AfterAlive(AfterAlive(m, b), a)[a.name] == b;
    }
  }

  lemma DeathsCommute(m: Records, d: Claim, e: Claim)
    requires d.name == e.name && d.state == e.state == Dead
    ensures AfterDeath(AfterDeath(m, d), e) == AfterDeath(AfterDeath(m, e), d)
            <==> d == e || !(Reaches(m, d) && Reaches(m, e))
  {
    if d != e && Reaches(m, d) && Reaches(m, e) {
      assert AfterDeath(AfterDeath(m, d), e)[d.name] == d && AfterDeath(AfterDeath(m, e), d)[d.name] == e;
    }
  }

  lemma AliveAndDeathCommute(m: Records, a: Claim, d: Claim)
    requires a.name == d.name && a.state == Alive && d.state == Dead
    ensures AfterDeath(AfterAlive(m, a), d) == AfterAlive(AfterDeath(m, d), a) <==> !Collide(m, a, d)
  {
    if Collide(m, a, d) {
      assert AfterDeath(AfterAlive(m, a), d)[a.name] == d && AfterAlive(AfterDeath(m, d), a)[a.name] == a;
    }
  }

  lemma OthersUntouched(self: Name, m: Records, c: Claim, n: Name)
    requires n != c.name
    ensures n in Told(self, m, c) <==> n in m
    ensures n in m ==> Told(self, m, c)[n] == m[n]
  {}

  lemma StrangersCommute(self: Name, m: Records, c: Claim, e: Claim)
    requires c.name != e.name
    ensures Told(self, Told(self, m, c), e) == Told(self, Told(self, m, e), c)
  {
    OthersUntouched(self, m, c, e.name);
    OthersUntouched(self, m, e, c.name);
  }

  lemma ToldCommute(self: Name, m: Records, c: Claim, e: Claim)
    requires c.state != Suspect && e.state != Suspect
    ensures Told(self, Told(self, m, c), e) == Told(self, Told(self, m, e), c) <==> !Clash(self, m, c, e)
  {
    if c.name != e.name {
      StrangersCommute(self, m, c, e);
    } else if c.state == Alive && e.state == Alive {
      AlivesCommute(m, c, e);
    } else if c.name == self {
    } else if c.state == Dead && e.state == Dead {
      DeathsCommute(m, c, e);
    } else if c.state == Alive {
      AliveAndDeathCommute(m, c, e);
    } else {
      AliveAndDeathCommute(m, e, c);
    }
  }

  /** Records do not converge in general. Two claims of the kinds a network ever sends
      leave the same records in either order exactly when they do not clash. */
  lemma WhenOrderMatters(l: Node, c: Claim, e: Claim, bc: bool, be: bool, ch1: Choice, ch2: Choice)
    requires c.state != Suspect && e.state != Suspect
    ensures Merge(Merge(l, c, bc, ch1), e, be, ch2).records == Merge(Merge(l, e, be, ch1), c, bc, ch2).records
            <==> !Clash(l.conf.name, l.records, c, e)
  {
    MergeTells(l, c, bc, ch1);
    MergeTells(Merge(l, c, bc, ch1), e, be, ch2);
    MergeTells(l, e, be, ch1);
    MergeTells(Merge(l, e, be, ch1), c, bc, ch2);
    ToldCommute(l.conf.name, l.records, c, e);
  }
}
