/** The fixed list of store sessions (departments) and their icons. */
module Sessions {
  import opened Wrappers
  import opened Counting

  /** `SESSIONS`, in display order. */
  const SESSIONS: seq<string> := [
    "Farináceos & Leites",
    "Molho & Temperos",
    "Biscoito & Matinais",
    "Laticínios & Danones",
    "Bebidas Alcoólicas",
    "Perfumaria",
    "Limpeza",
    "Bebidas Não Alcoólicas"
  ]

  const DefaultIcon := "📦"

  /** The icon table inside `getSessionIcon`. */
  function IconEntry(session: string): Option<string> {
    if session == SESSIONS[0] then Some("🌾🥛")
    else if session == SESSIONS[1] then Some("🌶️")
    else if session == SESSIONS[2] then Some("🍪")
    else if session == SESSIONS[3] then Some("🥛")
    else if session == SESSIONS[4] then Some("🍷")
    else if session == SESSIONS[5] then Some("💄")
    else if session == SESSIONS[6] then Some("🧹")
    else if session == SESSIONS[7] then Some("🥤")
    else None
  }

  /** `getSessionIcon`: the table's icon, or the parcel for any other string. */
  function GetSessionIcon(session: string): (r: string)
    ensures IconEntry(session).Some? && IconEntry(session).value != "" ==> r == IconEntry(session).value
    ensures IconEntry(session).None? ==> r == DefaultIcon
  {
    match IconEntry(session)
    case Some(icon) => if icon != "" then icon else DefaultIcon
    case None => DefaultIcon
  }

  /** The eight sessions are pairwise distinct. */
  lemma SessionsDistinct()
    ensures |SESSIONS| == 8 && Distinct(SESSIONS)
  {
  }

  /** The icon table's keys are exactly the sessions. */
  lemma IconKeysAreSessions(session: string)
    ensures IconEntry(session).Some? <==> session in SESSIONS
  {
  }

  /** Every session gets an icon of its own rather than the parcel. */
  lemma EverySessionHasIcon(session: string)
    requires session in SESSIONS
    ensures GetSessionIcon(session) != DefaultIcon
  {
  }
}
