/** What loadGroups computes, compared with the relational join it replaces. */
module ManyToMany {
  import opened Relations
  import opened Entities
  import opened Loading
  import opened LoadGroups

  // The position of a group's first row.
  function FirstRow(rows: seq<JoinRow>, g: int): (k: nat)
    requires HasGroup(rows, g)
    ensures k < |rows| && rows[k].group.id == g
    ensures forall j | 0 <= j < k :: rows[j].group.id != g
  {
    var before := rows[..|rows| - 1];
    assert rows == before + [rows[|rows| - 1]];
    if HasGroup(before, g) then FirstRow(before, g) else |rows| - 1
  }

  // h first appears in the rows after g does.
  ghost predicate Before(rows: seq<JoinRow>, g: GroupRow, h: GroupRow)
  {
    HasGroup(rows, g.id) && HasGroup(rows, h.id) && FirstRow(rows, g.id) < FirstRow(rows, h.id)
  }

  lemma FirstRowAppend(rows: seq<JoinRow>, row: JoinRow, g: int)
    requires HasGroup(rows + [row], g)
    ensures FirstRow(rows + [row], g) == if HasGroup(rows, g) then FirstRow(rows, g) else |rows|
  {
    assert (rows + [row])[..|rows|] == rows;
  }

  lemma {:induction false} FirstSeenInOrder(rows: seq<JoinRow>)
    ensures forall g | g in FirstSeen(rows) :: HasGroup(rows, g.id) && g == rows[FirstRow(rows, g.id)].group
    ensures forall i, j | 0 <= i < j < |FirstSeen(rows)| :: Before(rows, FirstSeen(rows)[i], FirstSeen(rows)[j])
  {
    if rows == [] {
    } else {
      var before, last := rows[..|rows| - 1], rows[|rows| - 1];
      assert rows == before + [last];
      FirstSeenInOrder(before);
      FirstSeenStep(before, last);
      forall g | g in FirstSeen(rows)
        ensures HasGroup(rows, g.id) && g == rows[FirstRow(rows, g.id)].group
        ensures FirstRow(rows, g.id) == if g in FirstSeen(before) then FirstRow(before, g.id) else |before|
      {
        HasGroupAppend(before, last, g.id);
        FirstRowAppend(before, last, g.id);
      }
      forall i, j | 0 <= i < j < |FirstSeen(rows)|
        ensures Before(rows, FirstSeen(rows)[i], FirstSeen(rows)[j])
      {
        assert FirstSeen(rows)[i] == FirstSeen(before)[i];
        if j < |FirstSeen(before)| {
          assert FirstSeen(rows)[j] == FirstSeen(before)[j];
          assert Before(before, FirstSeen(before)[i], FirstSeen(before)[j]);
        } else {
          assert FirstSeen(rows)[j] == last.group;
        }
      }
    }
  }

  /** For any joined rows, repeats allowed: the list an account gets names exactly the
      groups joined to it. */
  lemma GroupsOfAreJoined(rows: seq<JoinRow>, accountID: int, g: int)
    ensures Lists(GroupsOf(rows, accountID), g) <==> Joined(rows, accountID, g)
  {
    var p := (h: GroupRow) => Joined(rows, accountID, h.id);
    SelectMembers(p, FirstSeen(rows));
    FirstSeenCovers(rows);
    if Joined(rows, accountID, g) {
      var r :| r in rows && r.accountID == accountID && r.group.id == g;
      assert Lists(FirstSeen(rows), r.group.id);
      var h :| h in FirstSeen(rows) && h.id == g;
      assert h in GroupsOf(rows, accountID);
    }
  }

  /** That list has each group once, with the columns of the group's first row, in the
      order in which the groups first appear. */
  lemma GroupsOfInOrder(rows: seq<JoinRow>, accountID: int)
    ensures forall i, j | 0 <= i < j < |GroupsOf(rows, accountID)| ::
              Before(rows, GroupsOf(rows, accountID)[i], GroupsOf(rows, accountID)[j])
    ensures forall h | h in GroupsOf(rows, accountID) ::
              HasGroup(rows, h.id) && h == rows[FirstRow(rows, h.id)].group
  {
    var p := (g: GroupRow) => Joined(rows, accountID, g.id);
    SelectMembers(p, FirstSeen(rows));
    FirstSeenInOrder(rows);
    SelectPairwise(p, FirstSeen(rows), (g, h) => Before(rows, g, h));
  }

  // The group objects an account holds carry the rows of the join.
  lemma {:induction false} HeldRows(rows: seq<JoinRow>, accountID: int, neighbors: seq<Group>, seen: seq<GroupRow>)
    requires RowsAre(neighbors, seen)
    ensures RowsAre(GroupsHeld(rows, accountID, neighbors),
            Select((g: GroupRow) => Joined(rows, accountID, g.id), seen))
  {
    if seen == [] {
    } else {
      HeldRows(rows, accountID, neighbors[..|seen| - 1], seen[..|seen| - 1]);
    }
  }
}
