/**
 * The claim-or-skip scan of FileProvider::receive as a function of its
 * inputs: which candidates it claims, given the ids already in the lock
 * table, the files other processes hold locked, and messages_to_receive.
 */
module FileClaims {
  import opened FileLayout

  /** `!isset($filePointerList[$id]) && flock($fp, LOCK_EX | LOCK_NB)`. */
  predicate Claimable(c: Candidate, taken: set<string>, locked: set<Path>) {
    c.id !in taken && c.path !in locked
  }

  /**
   * The indices of the candidates claimed by the scan from index `i`
   * onwards, `count` messages having been claimed before it. After each
   * candidate, claimed or skipped, the scan stops when the count equals
   * `batch`.
   */
  function Claims(cands: seq<Candidate>, i: nat, taken: set<string>, locked: set<Path>, batch: int, count: nat): (r: seq<nat>)
    requires i <= |cands|
    ensures forall k :: 0 <= k < |r| ==> i <= r[k] < |cands|
    decreases |cands| - i
  {
    if i == |cands| then []
    else if Claimable(cands[i], taken, locked) then
      if count + 1 == batch then [i]
      else [i] + Claims(cands, i + 1, taken + {cands[i].id}, locked, batch, count + 1)
    else if count == batch then []
    else Claims(cands, i + 1, taken, locked, batch, count)
  }

  /** One step of the scan, unfolded. */
  lemma ClaimsStep(cands: seq<Candidate>, i: nat, taken: set<string>, locked: set<Path>, batch: int, count: nat)
    requires i < |cands|
    ensures Claimable(cands[i], taken, locked) ==>
      Claims(cands, i, taken, locked, batch, count)
        == [i] + (if count + 1 == batch then [] else Claims(cands, i + 1, taken + {cands[i].id}, locked, batch, count + 1))
    ensures !Claimable(cands[i], taken, locked) ==>
      Claims(cands, i, taken, locked, batch, count)
        == (if count == batch then [] else Claims(cands, i + 1, taken, locked, batch, count))
  {
  }

  /**
   * The scan seen from outside one step: the indices claimed so far
   * (`done`) followed by the rest of the scan from `i` are the indices
   * claimed once file `i` is handled followed by the scan from `i + 1`,
   * which is empty when that step filled the batch.
   */
  lemma ClaimsAdvance(cands: seq<Candidate>, i: nat, taken: set<string>, locked: set<Path>, batch: int, done: seq<nat>)
    requires i < |cands|
    ensures var claimed := Claimable(cands[i], taken, locked);
      var done' := if claimed then done + [i] else done;
      var taken' := if claimed then taken + {cands[i].id} else taken;
      done + Claims(cands, i, taken, locked, batch, |done|)
        == done' + (if |done'| == batch then [] else Claims(cands, i + 1, taken', locked, batch, |done'|))
  {
    ClaimsStep(cands, i, taken, locked, batch, |done|);
    if Claimable(cands[i], taken, locked) {
      var rest := if |done| + 1 == batch then [] else Claims(cands, i + 1, taken + {cands[i].id}, locked, batch, |done| + 1);
      assert done + ([i] + rest) == (done + [i]) + rest;
    }
  }

  /** The ids of the claimed candidates. */
  function ClaimedIds(cands: seq<Candidate>, picked: seq<nat>): set<string>
    requires forall k :: 0 <= k < |picked| ==> picked[k] < |cands|
  {
    set k | 0 <= k < |picked| :: cands[picked[k]].id
  }

  /** Claiming one more candidate adds its id. */
  lemma ClaimedIdsSnoc(cands: seq<Candidate>, picked: seq<nat>, i: nat)
    requires forall k :: 0 <= k < |picked| ==> picked[k] < |cands|
    requires i < |cands|
    ensures ClaimedIds(cands, picked + [i]) == ClaimedIds(cands, picked) + {cands[i].id}
  {
    var q := picked + [i];
    forall x | x in ClaimedIds(cands, picked) ensures x in ClaimedIds(cands, q) {
      var k :| 0 <= k < |picked| && cands[picked[k]].id == x;
      assert q[k] == picked[k];
    }
    assert q[|picked|] == i;
  }

  predicate StrictlyIncreasing(r: seq<nat>) {
    forall k, l :: 0 <= k < l < |r| ==> r[k] < r[l]
  }

  /** Claimed candidates are returned in enumeration order. */
  lemma {:induction false} ClaimsIncreasing(cands: seq<Candidate>, i: nat, taken: set<string>, locked: set<Path>, batch: int, count: nat)
    requires i <= |cands|
    ensures StrictlyIncreasing(Claims(cands, i, taken, locked, batch, count))
    decreases |cands| - i
  {
    if i < |cands| {
      var r := Claims(cands, i, taken, locked, batch, count);
      if Claimable(cands[i], taken, locked) && count + 1 != batch {
        var rest := Claims(cands, i + 1, taken + {cands[i].id}, locked, batch, count + 1);
        ClaimsIncreasing(cands, i + 1, taken + {cands[i].id}, locked, batch, count + 1);
        assert r == [i] + rest;
        forall k, l | 0 <= k < l < |r| ensures r[k] < r[l] {
          assert r[l] == rest[l - 1] && i + 1 <= rest[l - 1];
          if k == 0 {
            assert r[k] == i;
          } else {
            assert r[k] == rest[k - 1];
            assert rest[k - 1] < rest[l - 1];
          }
        }
      } else if !Claimable(cands[i], taken, locked) && count != batch {
        assert r == Claims(cands, i + 1, taken, locked, batch, count);
        ClaimsIncreasing(cands, i + 1, taken, locked, batch, count);
      } else {
        assert |r| <= 1;
      }
    }
  }

  /** Every index in `r` names a claimable candidate. */
  predicate AllClaimable(cands: seq<Candidate>, r: seq<nat>, taken: set<string>, locked: set<Path>)
    requires forall k :: 0 <= k < |r| ==> r[k] < |cands|
  {
    forall k :: 0 <= k < |r| ==> Claimable(cands[r[k]], taken, locked)
  }

  /** No two indices in `r` name candidates with the same id. */
  predicate DistinctIds(cands: seq<Candidate>, r: seq<nat>)
    requires forall k :: 0 <= k < |r| ==> r[k] < |cands|
  {
    forall k, l :: 0 <= k < l < |r| ==> cands[r[k]].id != cands[r[l]].id
  }

  /**
   * Each claimed candidate had an id absent from the table and a file no
   * other process held locked, and no id is claimed twice.
   */
  lemma {:induction false} ClaimsFresh(cands: seq<Candidate>, i: nat, taken: set<string>, locked: set<Path>, batch: int, count: nat)
    requires i <= |cands|
    ensures AllClaimable(cands, Claims(cands, i, taken, locked, batch, count), taken, locked)
    ensures DistinctIds(cands, Claims(cands, i, taken, locked, batch, count))
    decreases |cands| - i
  {
    if i < |cands| {
      var r := Claims(cands, i, taken, locked, batch, count);
      if Claimable(cands[i], taken, locked) && count + 1 != batch {
        var t := taken + {cands[i].id};
        var rest := Claims(cands, i + 1, t, locked, batch, count + 1);
        ClaimsFresh(cands, i + 1, t, locked, batch, count + 1);
        assert r == [i] + rest;
        forall k | 0 <= k < |r| ensures Claimable(cands[r[k]], taken, locked) {
          if k > 0 { assert r[k] == rest[k - 1]; }
        }
        forall k, l | 0 <= k < l < |r| ensures cands[r[k]].id != cands[r[l]].id {
          assert r[l] == rest[l - 1];
          if k > 0 { assert r[k] == rest[k - 1]; }
        }
      } else if !Claimable(cands[i], taken, locked) {
        ClaimsFresh(cands, i + 1, taken, locked, batch, count);
      }
    }
  }

  /** With a positive batch size the scan never claims more than the room left. */
  lemma {:induction false} ClaimsCapped(cands: seq<Candidate>, i: nat, taken: set<string>, locked: set<Path>, batch: int, count: nat)
    requires i <= |cands|
    requires 1 <= batch && count < batch
    ensures |Claims(cands, i, taken, locked, batch, count)| <= batch - count
    decreases |cands| - i
  {
    if i < |cands| {
      if Claimable(cands[i], taken, locked) {
        if count + 1 != batch {
          ClaimsCapped(cands, i + 1, taken + {cands[i].id}, locked, batch, count + 1);
        }
      } else {
        ClaimsCapped(cands, i + 1, taken, locked, batch, count);
      }
    }
  }

  /**
   * Once the batch is full the scan stops: candidates enumerated after the
   * last claimed one do not change the result.
   */
  lemma {:induction false} ClaimsStopAtCap(cands: seq<Candidate>, more: seq<Candidate>, i: nat, taken: set<string>, locked: set<Path>, batch: int, count: nat)
    requires i <= |cands|
    requires 1 <= batch && count < batch
    requires |Claims(cands, i, taken, locked, batch, count)| == batch - count
    ensures Claims(cands + more, i, taken, locked, batch, count) == Claims(cands, i, taken, locked, batch, count)
    decreases |cands| - i
  {
    assert i < |cands|;
    assert (cands + more)[i] == cands[i];
    if Claimable(cands[i], taken, locked) {
      if count + 1 != batch {
        ClaimsStopAtCap(cands, more, i + 1, taken + {cands[i].id}, locked, batch, count + 1);
      }
    } else {
      ClaimsStopAtCap(cands, more, i + 1, taken, locked, batch, count);
    }
  }

  /** A candidate the scan had to skip: its id is taken, earlier in this scan or before it, or its file is locked. */
  predicate Blocked(cands: seq<Candidate>, j: nat, r: seq<nat>, taken: set<string>, locked: set<Path>)
    requires j < |cands|
    requires forall k :: 0 <= k < |r| ==> r[k] < |cands|
  {
    || cands[j].id in taken
    || cands[j].path in locked
    || exists k :: 0 <= k < |r| && r[k] < j && cands[r[k]].id == cands[j].id
  }

  /** Every candidate from index `i` that `r` leaves out was blocked. */
  predicate OnlyBlockedSkipped(cands: seq<Candidate>, i: nat, r: seq<nat>, taken: set<string>, locked: set<Path>)
    requires forall k :: 0 <= k < |r| ==> r[k] < |cands|
  {
    forall j :: i <= j < |cands| && j !in r ==> Blocked(cands, j, r, taken, locked)
  }

  /**
   * Unless the count reached `batch`, the scan reaches every candidate and
   * leaves unclaimed only the blocked ones.
   */
  lemma {:induction false} ClaimsMaximal(cands: seq<Candidate>, i: nat, taken: set<string>, locked: set<Path>, batch: int, count: nat)
    requires i <= |cands|
    requires count + |Claims(cands, i, taken, locked, batch, count)| != batch
    ensures OnlyBlockedSkipped(cands, i, Claims(cands, i, taken, locked, batch, count), taken, locked)
    decreases |cands| - i
  {
    if i < |cands| {
      var r := Claims(cands, i, taken, locked, batch, count);
      if Claimable(cands[i], taken, locked) {
        var t := taken + {cands[i].id};
        var rest := Claims(cands, i + 1, t, locked, batch, count + 1);
        assert r == [i] + rest;
        ClaimsMaximal(cands, i + 1, t, locked, batch, count + 1);
        forall j | i <= j < |cands| && j !in r
          ensures Blocked(cands, j, r, taken, locked)
        {
          assert j != i && j !in rest;
          assert Blocked(cands, j, rest, t, locked);
          if cands[j].id == cands[i].id {
            assert r[0] == i;
          } else if cands[j].id !in taken && cands[j].path !in locked {
            var k :| 0 <= k < |rest| && rest[k] < j && cands[rest[k]].id == cands[j].id;
            assert r[k + 1] == rest[k];
          }
        }
      } else {
        ClaimsMaximal(cands, i + 1, taken, locked, batch, count);
      }
    }
  }

  /**
   * With messages_to_receive at 0, once one message is claimed the count
   * never equals the batch again: the scan behaves as if it had no cap.
   */
  lemma {:induction false} ZeroBatchIsUncapped(cands: seq<Candidate>, i: nat, taken: set<string>, locked: set<Path>, count: nat)
    requires i <= |cands|
    requires 1 <= count
    ensures Claims(cands, i, taken, locked, 0, count) == Claims(cands, i, taken, locked, -1, count)
    decreases |cands| - i
  {
    if i < |cands| {
      if Claimable(cands[i], taken, locked) {
        ZeroBatchIsUncapped(cands, i + 1, taken + {cands[i].id}, locked, count + 1);
      } else {
        ZeroBatchIsUncapped(cands, i + 1, taken, locked, count);
      }
    }
  }

  /** With messages_to_receive at 0, a blocked first candidate ends the scan with nothing. */
  lemma ZeroBatchStopsAtBlockedFirst(cands: seq<Candidate>, taken: set<string>, locked: set<Path>)
    requires 0 < |cands| && !Claimable(cands[0], taken, locked)
    ensures Claims(cands, 0, taken, locked, 0, 0) == []
  {
  }

  /**
   * Three published messages, messages_to_receive = 2: a first receive
   * claims two distinct ids, and a second one in the same process, the two
   * still held, claims the remaining one.
   */
  lemma TwoReceivesDrainThree()
    ensures var cands := [Candidate(["a", "1.json"], "1"), Candidate(["b", "2.json"], "2"), Candidate(["c", "3.json"], "3")];
      && Claims(cands, 0, {}, {}, 2, 0) == [0, 1]
      && Claims(cands, 0, {"1", "2"}, {}, 2, 0) == [2]
  {
  }
}
