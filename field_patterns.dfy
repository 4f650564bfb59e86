// The column-title and option patterns of src/lib/dance-constants.ts and
// src/lib/playlist-constants.ts.  Each is a case-insensitive alternation of literals,
// so each is a disjunction of substring tests.

module FieldPatterns {
  import opened JsString

  /** `/name|닉네임/i` */
  predicate DanceName(s: string) {
    ContainsIgnoringCase(s, "name") || ContainsIgnoringCase(s, "닉네임")
  }

  /** `/role|역할|리드|리더/i` */
  predicate DanceRole(s: string) {
    ContainsIgnoringCase(s, "role") || ContainsIgnoringCase(s, "역할") ||
    ContainsIgnoringCase(s, "리드") || ContainsIgnoringCase(s, "리더")
  }

  /** `/말씀|한마디/i` */
  predicate DanceWish(s: string) {
    ContainsIgnoringCase(s, "말씀") || ContainsIgnoringCase(s, "한마디")
  }

  /** `/입금여|입금확/i` */
  predicate DancePaid(s: string) {
    ContainsIgnoringCase(s, "입금여") || ContainsIgnoringCase(s, "입금확")
  }

  /** `/group|그룹|단체/i` */
  predicate DanceGroup(s: string) {
    ContainsIgnoringCase(s, "group") || ContainsIgnoringCase(s, "그룹") ||
    ContainsIgnoringCase(s, "단체")
  }

  /** `/lead|리더|리드/i` */
  predicate DanceLeader(s: string) {
    ContainsIgnoringCase(s, "lead") || ContainsIgnoringCase(s, "리더") ||
    ContainsIgnoringCase(s, "리드")
  }

  /** `/follow|팔뤄|팔로우|팔로워/i` */
  predicate DanceFollow(s: string) {
    ContainsIgnoringCase(s, "follow") || ContainsIgnoringCase(s, "팔뤄") ||
    ContainsIgnoringCase(s, "팔로우") || ContainsIgnoringCase(s, "팔로워")
  }

  /** `/title|제목|곡명|song|track/i` */
  predicate PlaylistTitle(s: string) {
    ContainsIgnoringCase(s, "title") || ContainsIgnoringCase(s, "제목") ||
    ContainsIgnoringCase(s, "곡명") || ContainsIgnoringCase(s, "song") ||
    ContainsIgnoringCase(s, "track")
  }

  /** `/artist|아티스트|가수|singer/i` */
  predicate PlaylistArtist(s: string) {
    ContainsIgnoringCase(s, "artist") || ContainsIgnoringCase(s, "아티스트") ||
    ContainsIgnoringCase(s, "가수") || ContainsIgnoringCase(s, "singer")
  }
}
