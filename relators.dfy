/** The table of contributor roles: a role label, as a MODS `roleTerm` reads after
    capitalization, mapped to its MARC relator code in the `relators:` vocabulary. */
module Relators {
  import opened PyStr
  import opened PyTree

  /** `relator_map.get(role)`: the relator code of a role label, if the table has one. */
  function RelatorLookup(role: string): Option<string> {
    match role
    case "" => Some("relators:att")
    case "Abridger" => Some("relators:abr")
    case "Actor" => Some("relators:act")
    case "Adapter" => Some("relators:adp")
    case "Addressee" => Some("relators:rcp")
    case "Analyst" => Some("relators:anl")
    case "Animator" => Some("relators:anm")
    case "Annotator" => Some("relators:ann")
    case "Appellant" => Some("relators:apl")
    case "Appellee" => Some("relators:ape")
    case "Applicant" => Some("relators:app")
    case "Architect" => Some("relators:arc")
    case "Arranger" => Some("relators:arr")
    case "Art copyist" => Some("relators:acp")
    case "Art director" => Some("relators:adi")
    case "Artist" => Some("relators:art")
    case "Artistic director" => Some("relators:ard")
    case "Assignee" => Some("relators:asg")
    case "Associated name" => Some("relators:asn")
    case "Auctioneer" => Some("relators:auc")
    case "Author" => Some("relators:aut")
    case "Author in quotations or text abstracts" => Some("relators:aqt")
    case "Author of afterword, colophon, etc." => Some("relators:aft")
    case "Author of dialog" => Some("relators:aud")
    case "Author of introduction, etc." => Some("relators:aui")
    case "Autographer" => Some("relators:ato")
    case "Bibliographic antecedent" => Some("relators:ant")
    case "Binder" => Some("relators:bnd")
    case "Binding designer" => Some("relators:bdd")
    case "Blurb writer" => Some("relators:blw")
    case "Book designer" => Some("relators:bkd")
    case "Book producer" => Some("relators:bkp")
    case "Bookjacket designer" => Some("relators:bjd")
    case "Bookplate designer" => Some("relators:bpd")
    case "Bookseller" => Some("relators:bsl")
    case "Braille embosser" => Some("relators:brl")
    case "Broadcaster" => Some("relators:brd")
    case "Calligrapher" => Some("relators:cll")
    case "Cartographer" => Some("relators:ctg")
    case "Caster" => Some("relators:cas")
    case "Censor" => Some("relators:cns")
    case "Choreographer" => Some("relators:chr")
    case "Collaborator (deprecated, use Contributor)" => Some("relators:clb")
    case "Cinematographer" => Some("relators:cng")
    case "Client" => Some("relators:cli")
    case "Collection registrar" => Some("relators:cor")
    case "Collector" => Some("relators:col")
    case "Collotyper" => Some("relators:clt")
    case "Colorist" => Some("relators:clr")
    case "Commentator" => Some("relators:cmm")
    case "Commentator for written text" => Some("relators:cwt")
    case "Compiler" => Some("relators:com")
    case "Complainant" => Some("relators:cpl")
    case "Complainant-appellant" => Some("relators:cpt")
    case "Complainant-appellee" => Some("relators:cpe")
    case "Composer" => Some("relators:cmp")
    case "Compositor" => Some("relators:cmt")
    case "Conceptor" => Some("relators:ccp")
    case "Conductor" => Some("relators:cnd")
    case "Conservator" => Some("relators:con")
    case "Consultant" => Some("relators:csl")
    case "Consultant to a project" => Some("relators:csp")
    case "Contestant" => Some("relators:cos")
    case "Contestant-appellant" => Some("relators:cot")
    case "Contestant-appellee" => Some("relators:coe")
    case "Contestee" => Some("relators:cts")
    case "Contestee-appellant" => Some("relators:ctt")
    case "Contestee-appellee" => Some("relators:cte")
    case "Contractor" => Some("relators:ctr")
    case "Contributor" => Some("relators:ctb")
    case "Copyright claimant" => Some("relators:cpc")
    case "Copyright holder" => Some("relators:cph")
    case "Corrector" => Some("relators:crr")
    case "Correspondent" => Some("relators:crp")
    case "Costume designer" => Some("relators:cst")
    case "Court governed" => Some("relators:cou")
    case "Court reporter" => Some("relators:crt")
    case "Cover designer" => Some("relators:cov")
    case "Creator" => Some("relators:cre")
    case "Curator" => Some("relators:cur")
    case "Dancer" => Some("relators:dnc")
    case "Data contributor" => Some("relators:dtc")
    case "Data manager" => Some("relators:dtm")
    case "Dedicatee" => Some("relators:dte")
    case "Dedicator" => Some("relators:dto")
    case "Defendant" => Some("relators:dfd")
    case "Defendant-appellant" => Some("relators:dft")
    case "Defendant-appellee" => Some("relators:dfe")
    case "Degree granting institution" => Some("relators:dgg")
    case "Degree supervisor" => Some("relators:dgs")
    case "Delineator" => Some("relators:dln")
    case "Depicted" => Some("relators:dpc")
    case "Depositor" => Some("relators:dpt")
    case "Designer" => Some("relators:dsr")
    case "Director" => Some("relators:drt")
    case "Dissertant" => Some("relators:dis")
    case "Distribution place" => Some("relators:dbp")
    case "Distributor" => Some("relators:dst")
    case "Donor" => Some("relators:dnr")
    case "Draftsman" => Some("relators:drm")
    case "Dubious author" => Some("relators:dub")
    case "Editor" => Some("relators:edt")
    case "Editor of compilation" => Some("relators:edc")
    case "Editor of moving image work" => Some("relators:edm")
    case "Electrician" => Some("relators:elg")
    case "Electrotyper" => Some("relators:elt")
    case "Enacting jurisdiction" => Some("relators:enj")
    case "Engineer" => Some("relators:eng")
    case "Engraver" => Some("relators:egr")
    case "Etcher" => Some("relators:etr")
    case "Event place" => Some("relators:evp")
    case "Expert" => Some("relators:exp")
    case "Facsimilist" => Some("relators:fac")
    case "Field director" => Some("relators:fld")
    case "Film director" => Some("relators:fmd")
    case "Film distributor" => Some("relators:fds")
    case "Film editor" => Some("relators:flm")
    case "Film producer" => Some("relators:fmp")
    case "Filmmaker" => Some("relators:fmk")
    case "First party" => Some("relators:fpy")
    case "Forger" => Some("relators:frg")
    case "Former owner" => Some("relators:fmo")
    case "Funder" => Some("relators:fnd")
    case "Geographic information specialist" => Some("relators:gis")
    case "Graphic technician (deprecated, use Artist)" => Some("relators:grt")
    case "Honoree" => Some("relators:hnr")
    case "Host" => Some("relators:hst")
    case "Host institution" => Some("relators:his")
    case "Illuminator" => Some("relators:ilu")
    case "Illustrator" => Some("relators:ill")
    case "Inscriber" => Some("relators:ins")
    case "Instrumentalist" => Some("relators:itr")
    case "Interviewee" => Some("relators:ive")
    case "Interviewer" => Some("relators:ivr")
    case "Inventor" => Some("relators:inv")
    case "Issuing body" => Some("relators:isb")
    case "Issuer" => Some("relators:isb")
    case "Judge" => Some("relators:jud")
    case "Jurisdiction governed" => Some("relators:jug")
    case "Laboratory" => Some("relators:lbr")
    case "Laboratory director" => Some("relators:ldr")
    case "Landscape architect" => Some("relators:lsa")
    case "Lead" => Some("relators:led")
    case "Lender" => Some("relators:len")
    case "Libelant" => Some("relators:lil")
    case "Libelant-appellant" => Some("relators:lit")
    case "Libelant-appellee" => Some("relators:lie")
    case "Libelee" => Some("relators:lel")
    case "Libelee-appellant" => Some("relators:let")
    case "Libelee-appellee" => Some("relators:lee")
    case "Librettist" => Some("relators:lbt")
    case "Licensee" => Some("relators:lse")
    case "Licensor" => Some("relators:lso")
    case "Lighting designer" => Some("relators:lgd")
    case "Lithographer" => Some("relators:ltg")
    case "Lyricist" => Some("relators:lyr")
    case "Manufacture place" => Some("relators:mfp")
    case "Manufacturer" => Some("relators:mfr")
    case "Marbler" => Some("relators:mrb")
    case "Markup editor" => Some("relators:mrk")
    case "Medium" => Some("relators:med")
    case "Metadata contact" => Some("relators:mdc")
    case "Metal-engraver" => Some("relators:mte")
    case "Minute taker" => Some("relators:mtk")
    case "Moderator" => Some("relators:mod")
    case "Monitor" => Some("relators:mon")
    case "Music copyist" => Some("relators:mcp")
    case "Musical director" => Some("relators:msd")
    case "Musician" => Some("relators:mus")
    case "Narrator" => Some("relators:nrt")
    case "Onscreen presenter" => Some("relators:osp")
    case "Opponent" => Some("relators:opn")
    case "Organizer" => Some("relators:orm")
    case "Originator" => Some("relators:org")
    case "Other" => Some("relators:oth")
    case "Owner" => Some("relators:own")
    case "Panelist" => Some("relators:pan")
    case "Papermaker" => Some("relators:ppm")
    case "Patent applicant" => Some("relators:pta")
    case "Patent holder" => Some("relators:pth")
    case "Patron" => Some("relators:pat")
    case "Performer" => Some("relators:prf")
    case "Permitting agency" => Some("relators:pma")
    case "Photographer" => Some("relators:pht")
    case "Plaintiff" => Some("relators:ptf")
    case "Plaintiff-appellant" => Some("relators:ptt")
    case "Plaintiff-appellee" => Some("relators:pte")
    case "Platemaker" => Some("relators:plt")
    case "Praeses" => Some("relators:pra")
    case "Presenter" => Some("relators:pre")
    case "Printer" => Some("relators:prt")
    case "Printer of plates" => Some("relators:pop")
    case "Printmaker" => Some("relators:prm")
    case "Process contact" => Some("relators:prc")
    case "Producer" => Some("relators:pro")
    case "Production company" => Some("relators:prn")
    case "Production designer" => Some("relators:prs")
    case "Production manager" => Some("relators:pmn")
    case "Production personnel" => Some("relators:prd")
    case "Production place" => Some("relators:prp")
    case "Programmer" => Some("relators:prg")
    case "Project director" => Some("relators:pdr")
    case "Proofreader" => Some("relators:pfr")
    case "Provider" => Some("relators:prv")
    case "Publishing director" => Some("relators:pbd")
    case "Puppeteer" => Some("relators:ppt")
    case "Radio director" => Some("relators:rdd")
    case "Radio producer" => Some("relators:rpc")
    case "Recording engineer" => Some("relators:rce")
    case "Recordist" => Some("relators:rcd")
    case "Redaktor" => Some("relators:red")
    case "Renderer" => Some("relators:ren")
    case "Reporter" => Some("relators:rpt")
    case "Repository" => Some("relators:rps")
    case "Research team head" => Some("relators:rth")
    case "Research team member" => Some("relators:rtm")
    case "Researcher" => Some("relators:res")
    case "Respondent" => Some("relators:rsp")
    case "Respondent-appellant" => Some("relators:rst")
    case "Respondent-appellee" => Some("relators:rse")
    case "Responsible party" => Some("relators:rpy")
    case "Restager" => Some("relators:rsg")
    case "Restorationist" => Some("relators:rsr")
    case "Reviewer" => Some("relators:rev")
    case "Rubricator" => Some("relators:rbr")
    case "Scenarist" => Some("relators:sce")
    case "Scientific advisor" => Some("relators:sad")
    case "Screenwriter" => Some("relators:aus")
    case "Scribe" => Some("relators:scr")
    case "Sculptor" => Some("relators:scl")
    case "Second party" => Some("relators:spy")
    case "Secretary" => Some("relators:sec")
    case "Seller" => Some("relators:sll")
    case "Set designer" => Some("relators:std")
    case "Setting" => Some("relators:stg")
    case "Signer" => Some("relators:sgn")
    case "Singer" => Some("relators:sng")
    case "Sound designer" => Some("relators:sds")
    case "Speaker" => Some("relators:spk")
    case "Sponsor" => Some("relators:spn")
    case "Stage director" => Some("relators:sgd")
    case "Stage manager" => Some("relators:stm")
    case "Standards body" => Some("relators:stn")
    case "Stereotyper" => Some("relators:str")
    case "Storyteller" => Some("relators:stl")
    case "Supporting host" => Some("relators:sht")
    case "Surveyor" => Some("relators:srv")
    case "Teacher" => Some("relators:tch")
    case "Technical director" => Some("relators:tcd")
    case "Television director" => Some("relators:tld")
    case "Television producer" => Some("relators:tlp")
    case "Thesis advisor" => Some("relators:ths")
    case "Transcriber" => Some("relators:trc")
    case "Translator" => Some("relators:trl")
    case "Type designer" => Some("relators:tyd")
    case "Typographer" => Some("relators:tyg")
    case "University place" => Some("relators:uvp")
    case "Videographer" => Some("relators:vdg")
    case "Vocalist (deprecated, use Singer)" => Some("relators:voc")
    case "Voice actor" => Some("relators:vac")
    case "Witness" => Some("relators:wit")
    case "Wood engraver" => Some("relators:wde")
    case "Woodcutter" => Some("relators:wdc")
    case "Writer of accompanying material" => Some("relators:wam")
    case "Writer of added commentary" => Some("relators:wac")
    case "Writer of added lyrics" => Some("relators:wal")
    case "Writer of added text" => Some("relators:wat")
    case "Writer of introduction" => Some("relators:win")
    case "Writer of preface" => Some("relators:wpr")
    case "Writer of supplementary textual content" => Some("relators:wst")
    case _ => None
  }

  /** The label used when a role is not in the table. */
  const DefaultRole: string := "Editor"

  /** The code the table gives `DefaultRole`. */
  const DefaultCode: string := "relators:edt"

  lemma DefaultRoleCode()
    ensures RelatorLookup(DefaultRole) == Some(DefaultCode)
  {
  }

  /** The relator code `parse_name` emits for a role: the table entry, or the entry of
      `DefaultRole` when the table has none. */
  function RelatorCode(role: string): (code: string)
    ensures RelatorLookup(role).Some? ==> code == RelatorLookup(role).value
    ensures RelatorLookup(role).None? ==> code == DefaultCode
  {
    match RelatorLookup(role)
    case Some(c) => c
    case None => DefaultRoleCode(); DefaultCode
  }

  /** The empty role has its own entry. */
  lemma EmptyRoleIsAttributed()
    ensures RelatorCode("") == "relators:att"
  {
  }

  /** Three labels of the table keep an upper-case letter after their first character, so no
      capitalized role term ever reaches them: such a role falls back to `DefaultRole`. */
  lemma DeprecatedLabelsUnreachable(term: string)
    ensures Capitalize(term) != "Collaborator (deprecated, use Contributor)"
    ensures Capitalize(term) != "Graphic technician (deprecated, use Artist)"
    ensures Capitalize(term) != "Vocalist (deprecated, use Singer)"
  {
    UpperAfterFirst(term, 30, "Collaborator (deprecated, use Contributor)");
    UpperAfterFirst(term, 36, "Graphic technician (deprecated, use Artist)");
    UpperAfterFirst(term, 26, "Vocalist (deprecated, use Singer)");
  }

  /** A label with a capital letter after its first character is never a capitalized term. */
  lemma UpperAfterFirst(term: string, i: nat, entry: string)
    requires 1 <= i < |entry|
    requires 'A' <= entry[i] <= 'Z'
    ensures Capitalize(term) != entry
  {
    var c := Capitalize(term);
    if |c| == |entry| {
      assert !('A' <= c[i] <= 'Z');
    }
  }
}
