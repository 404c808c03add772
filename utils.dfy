/** The role lookup and the main menu of `commands/utils.py`. */
module Utils {
  import opened Base
  import opened Layout

  const AdminIds: set<UserId> := {123456789}

  /** `roles_for(user_id)`: a single role, "Admin" for the listed ids and
      "Member" for everyone else. */
  function RolesFor(u: UserId): (roles: seq<string>)
    ensures |roles| == 1
    ensures roles == ["Admin"] <==> u in AdminIds
    ensures roles == ["Member"] <==> u !in AdminIds
  {
    if u in AdminIds then ["Admin"] else ["Member"]
  }

  /** The three rows every user sees. */
  const BaseRows: Keyboard := [
    [Button("\U{1F4C5} Next", "next"), Button("\U{1F5D3} Week", "week")],
    [Button("\U{1F4CE} Slides", "slides"), Button("\U{1F4D8} Guidelines", "guidelines")],
    [Button("\U{1F3C6} Recognition", "recognition"), Button("\U{1F5D3} Calendar", "calendar")]
  ]

  /** The four rows only admins see. */
  const AdminRows: Keyboard := [
    [Button("\U{2795} Save Event", "saveevent"), Button("\U{1F399} Assign MC", "assignmc")],
    [Button("\U{2728} Assign Impact", "assignimpact"), Button("\U{1F4E3} Announce", "announce")],
    [Button("\U{1F501} Shift Event", "shift"), Button("\U{1F9CA} Freeze Recs", "recfreeze")],
    [Button("\U{1F9E9} Set Template", "settemplate"), Button("\U{1F4C4} Set Guidelines", "setguidelines")]
  ]

  /** `role_menu(roles)`: the three base rows, then the four admin rows when
      "Admin" is among the roles; every row holds two buttons. */
  method RoleMenu(roles: seq<string>) returns (rows: Keyboard)
    ensures |rows| == if "Admin" in roles then 7 else 3
    ensures rows[..3] == BaseRows
    ensures "Admin" in roles ==> rows[3..] == AdminRows
    ensures forall i :: 0 <= i < |rows| ==> |rows[i]| == 2
  {
    rows := [];
    rows := rows + [BaseRows[0]];
    rows := rows + [BaseRows[1]];
    rows := rows + [BaseRows[2]];
    if "Admin" in roles {
      rows := rows + [AdminRows[0]];
      rows := rows + [AdminRows[1]];
      rows := rows + [AdminRows[2]];
      rows := rows + [AdminRows[3]];
    }
  }

  /** The menu a user gets from their own roles: seven rows for an admin
      id, three for anyone else. */
  method MenuFor(u: UserId) returns (rows: Keyboard)
    ensures |rows| == if u in AdminIds then 7 else 3
    ensures rows[..3] == BaseRows
    ensures u in AdminIds ==> rows[3..] == AdminRows
  {
    rows := RoleMenu(RolesFor(u));
  }

  /** The callback data of every button of a keyboard. */
  function Callbacks(kb: Keyboard): set<string>
  {
    set i, j | 0 <= i < |kb| && 0 <= j < |kb[i]| :: kb[i][j].data
  }

  /** No menu offers the presenter assignment: its start callback,
      "assignpresenter", is on no button, admin or not. */
  lemma NoPresenterEntry()
    ensures "assignpresenter" !in Callbacks(BaseRows + AdminRows)
    ensures "assignmc" in Callbacks(AdminRows) && "assignimpact" in Callbacks(AdminRows)
  {
    var kb: Keyboard := BaseRows + AdminRows;
    assert |kb| == 7;
    assert forall i: int, j: int :: 0 <= i < 7 && 0 <= j < |kb[i]| ==> kb[i][j].data != "assignpresenter";
    assert AdminRows[0][1].data == "assignmc";
    assert AdminRows[1][0].data == "assignimpact";
  }
}
