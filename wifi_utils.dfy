/** Names of the Wi-Fi disconnect reasons that the station driver reports.

    The reason codes 1 to 66 are the Reason Code values of section 9.4.1.7
    of IEEE 802.11-2016; the codes from 200 up are Espressif's own.  Their
    numeric values live in the driver's headers, so the model names each
    code by a constructor rather than by a number. */
module WifiUtils {

  /** A disconnect reason code as the driver delivers it: one constructor
      per code that the name table lists (named after its `WIFI_REASON_`
      identifier), and `UnlistedReason` for any other value; its `code` is
      meant to be none of the listed codes' values. */
  datatype WifiReason =
    | Unspecified
    | AuthExpire
    | AuthLeave
    | AssocExpire
    | AssocToomany
    | NotAuthed
    | NotAssoced
    | AssocLeave
    | AssocNotAuthed
    | DisassocPwrcapBad
    | DisassocSupchanBad
    | BssTransitionDisassoc
    | IeInvalid
    | MicFailure
    | FourWayHandshakeTimeout
    | GroupKeyUpdateTimeout
    | IeIn4wayDiffers
    | GroupCipherInvalid
    | PairwiseCipherInvalid
    | AkmpInvalid
    | UnsuppRsnIeVersion
    | InvalidRsnIeCap
    | Ieee8021xAuthFailed
    | CipherSuiteRejected
    | TdlsPeerUnreachable
    | TdlsUnspecified
    | SspRequestedDisassoc
    | NoSspRoamingAgreement
    | BadCipherOrAkm
    | NotAuthorizedThisLocation
    | ServiceChangePercludesTs
    | UnspecifiedQos
    | NotEnoughBandwidth
    | MissingAcks
    | ExceededTxop
    | StaLeaving
    | EndBa
    | UnknownBa
    | Timeout
    | PeerInitiated
    | ApInitiated
    | InvalidFtActionFrameCount
    | InvalidPmkid
    | InvalidMde
    | InvalidFte
    | TransmissionLinkEstablishFailed
    | AlterativeChannelOccupied
    | BeaconTimeout
    | NoApFound
    | AuthFail
    | AssocFail
    | HandshakeTimeout
    | ConnectionFail
    | ApTsfReset
    | Roaming
    | AssocComebackTimeTooLong
    | SaQueryTimeout
    | NoApFoundWCompatibleSecurity
    | NoApFoundInAuthmodeThreshold
    | NoApFoundInRssiThreshold
    | UnlistedReason(code: int)

  /** Whether the name table has a case of its own for `reason`. */
  predicate Listed(reason: WifiReason) {
    !reason.UnlistedReason?
  }

  /** `wifi_disconnect_reason_string`: the name of a reason.  The match is
      total, the default case answering "unknown", so there is no code for
      which the C function could return a null pointer.  The default is
      tested first here, which gives the same answer for every code. */
  function ReasonString(reason: WifiReason): (name: string)
    ensures !Listed(reason) ==> name == "unknown"
  {
    if !Listed(reason) then "unknown" else
    match reason
    case Unspecified => "unspecified"
    case AuthExpire => "auth_expire"
    case AuthLeave => "auth_leave"
    case AssocExpire => "assoc_expire"
    case AssocToomany => "assoc_toomany"
    case NotAuthed => "not_authed"
    case NotAssoced => "not_assoced"
    case AssocLeave => "assoc_leave"
    case AssocNotAuthed => "assoc_not_authed"
    case DisassocPwrcapBad => "disassoc_pwrcap_bad"
    case DisassocSupchanBad => "disassoc_supchan_bad"
    case BssTransitionDisassoc => "bss_transition_disassoc"
    case IeInvalid => "ie_invalid"
    case MicFailure => "mic_failure"
    case FourWayHandshakeTimeout => "4way_handshake_timeout"
    case GroupKeyUpdateTimeout => "group_key_update_timeout"
    case IeIn4wayDiffers => "ie_in_4way_differs"
    case GroupCipherInvalid => "group_cipher_invalid"
    case PairwiseCipherInvalid => "pairwise_cipher_invalid"
    case AkmpInvalid => "akmp_invalid"
    case UnsuppRsnIeVersion => "unsupp_rsn_ie_version"
    case InvalidRsnIeCap => "invalid_rsn_ie_cap"
    case Ieee8021xAuthFailed => "802_1x_auth_failed"
    case CipherSuiteRejected => "cipher_suite_rejected"
    case TdlsPeerUnreachable => "tdls_peer_unreachable"
    case TdlsUnspecified => "tdls_unspecified"
    case SspRequestedDisassoc => "ssp_requested_disassoc"
    case NoSspRoamingAgreement => "no_ssp_roaming_agreement"
    case BadCipherOrAkm => "bad_cipher_or_akm"
    case NotAuthorizedThisLocation => "not_authorized_this_location"
    case ServiceChangePercludesTs => "service_change_percludes_ts"
    case UnspecifiedQos => "unspecified_qos"
    case NotEnoughBandwidth => "not_enough_bandwidth"
    case MissingAcks => "missing_acks"
    case ExceededTxop => "exceeded_txop"
    case StaLeaving => "sta_leaving"
    case EndBa => "end_ba"
    case UnknownBa => "unknown_ba"
    case Timeout => "timeout"
    case PeerInitiated => "peer_initiated"
    case ApInitiated => "ap_initiated"
    case InvalidFtActionFrameCount => "invalid_ft_action_frame_count"
    case InvalidPmkid => "invalid_pmkid"
    case InvalidMde => "invalid_mde"
    case InvalidFte => "invalid_fte"
    case TransmissionLinkEstablishFailed => "transmission_link_establish_failed"
    case AlterativeChannelOccupied => "alterative_channel_occupied"
    case BeaconTimeout => "beacon_timeout"
    case NoApFound => "no_ap_found"
    case AuthFail => "auth_fail"
    case AssocFail => "assoc_fail"
    case HandshakeTimeout => "handshake_timeout"
    case ConnectionFail => "connection_fail"
    case ApTsfReset => "ap_tsf_reset"
    case Roaming => "roaming"
    case AssocComebackTimeTooLong => "assoc_comeback_time_too_long"
    case SaQueryTimeout => "sa_query_timeout"
    case NoApFoundWCompatibleSecurity => "no_ap_found_w_compatible_security"
    case NoApFoundInAuthmodeThreshold => "no_ap_found_in_authmode_threshold"
    case NoApFoundInRssiThreshold => "no_ap_found_in_rssi_threshold"
    case UnlistedReason(_) => "unknown"
  }

  // Telling the names apart.  Comparing the 60 names with one another
  // character by character is more than the solver manages in one proof, so
  // the argument goes through a fingerprint: a name's length together with
  // its last and its third-from-last character already separates all
  // listed names, and `ReasonOfKey` recovers the reason from it.

  /** The fingerprint of a name. */
  function NameKey(name: string): (int, char, char)
    requires |name| >= 3
  {
    (|name|, name[|name| - 1], name[|name| - 3])
  }

  /** The listed reason whose name has fingerprint `key`; an unlisted
      reason when no listed name has it. */
  function ReasonOfKey(key: (int, char, char)): WifiReason {
    var (length, last, thirdLast) := key;
    match length
    case 6 =>
      if last == 'a' && thirdLast == '_' then EndBa else
      UnlistedReason(0)
    case 7 =>
      if last == 't' && thirdLast == 'o' then Timeout else
      if last == 'g' && thirdLast == 'i' then Roaming else
      UnlistedReason(0)
    case 9 =>
      if last == 'l' && thirdLast == 'a' then AuthFail else
      UnlistedReason(0)
    case 10 =>
      if last == 'e' && thirdLast == 'a' then AuthLeave else
      if last == 'd' && thirdLast == 'h' then NotAuthed else
      if last == 'd' && thirdLast == 'l' then IeInvalid else
      if last == 'a' && thirdLast == '_' then UnknownBa else
      if last == 'l' && thirdLast == 'a' then AssocFail else
      UnlistedReason(0)
    case 11 =>
      if last == 'd' && thirdLast == 'i' then Unspecified else
      if last == 'e' && thirdLast == 'i' then AuthExpire else
      if last == 'd' && thirdLast == 'c' then NotAssoced else
      if last == 'e' && thirdLast == 'a' then AssocLeave else
      if last == 'e' && thirdLast == 'u' then MicFailure else
      if last == 'g' && thirdLast == 'i' then StaLeaving else
      if last == 'e' && thirdLast == 'm' then InvalidMde else
      if last == 'e' && thirdLast == 'f' then InvalidFte else
      if last == 'd' && thirdLast == 'u' then NoApFound else
      UnlistedReason(0)
    case 12 =>
      if last == 'e' && thirdLast == 'i' then AssocExpire else
      if last == 'd' && thirdLast == 'l' then AkmpInvalid else
      if last == 's' && thirdLast == 'c' then MissingAcks else
      if last == 'd' && thirdLast == 't' then ApInitiated else
      if last == 't' && thirdLast == 's' then ApTsfReset else
      UnlistedReason(0)
    case 13 =>
      if last == 'y' && thirdLast == 'a' then AssocToomany else
      if last == 'p' && thirdLast == 'x' then ExceededTxop else
      if last == 'd' && thirdLast == 'k' then InvalidPmkid else
      UnlistedReason(0)
    case 14 =>
      if last == 'd' && thirdLast == 't' then PeerInitiated else
      if last == 't' && thirdLast == 'o' then BeaconTimeout else
      UnlistedReason(0)
    case 15 =>
      if last == 's' && thirdLast == 'q' then UnspecifiedQos else
      if last == 'l' && thirdLast == 'a' then ConnectionFail else
      UnlistedReason(0)
    case 16 =>
      if last == 'd' && thirdLast == 'h' then AssocNotAuthed else
      if last == 'd' && thirdLast == 'i' then TdlsUnspecified else
      if last == 't' && thirdLast == 'o' then SaQueryTimeout else
      UnlistedReason(0)
    case 17 =>
      if last == 'm' && thirdLast == 'a' then BadCipherOrAkm else
      if last == 't' && thirdLast == 'o' then HandshakeTimeout else
      UnlistedReason(0)
    case 18 =>
      if last == 's' && thirdLast == 'e' then IeIn4wayDiffers else
      if last == 'p' && thirdLast == 'c' then InvalidRsnIeCap else
      if last == 'd' && thirdLast == 'l' then Ieee8021xAuthFailed else
      UnlistedReason(0)
    case 19 =>
      if last == 'd' && thirdLast == 'b' then DisassocPwrcapBad else
      UnlistedReason(0)
    case 20 =>
      if last == 'd' && thirdLast == 'b' then DisassocSupchanBad else
      if last == 'd' && thirdLast == 'l' then GroupCipherInvalid else
      if last == 'h' && thirdLast == 'd' then NotEnoughBandwidth else
      UnlistedReason(0)
    case 21 =>
      if last == 'n' && thirdLast == 'i' then UnsuppRsnIeVersion else
      if last == 'd' && thirdLast == 't' then CipherSuiteRejected else
      if last == 'e' && thirdLast == 'b' then TdlsPeerUnreachable else
      UnlistedReason(0)
    case 22 =>
      if last == 't' && thirdLast == 'o' then FourWayHandshakeTimeout else
      if last == 'c' && thirdLast == 's' then SspRequestedDisassoc else
      UnlistedReason(0)
    case 23 =>
      if last == 'c' && thirdLast == 's' then BssTransitionDisassoc else
      if last == 'd' && thirdLast == 'l' then PairwiseCipherInvalid else
      UnlistedReason(0)
    case 24 =>
      if last == 't' && thirdLast == 'o' then GroupKeyUpdateTimeout else
      if last == 't' && thirdLast == 'e' then NoSspRoamingAgreement else
      UnlistedReason(0)
    case 27 =>
      if last == 's' && thirdLast == '_' then ServiceChangePercludesTs else
      if last == 'd' && thirdLast == 'i' then AlterativeChannelOccupied else
      UnlistedReason(0)
    case 28 =>
      if last == 'n' && thirdLast == 'i' then NotAuthorizedThisLocation else
      if last == 'g' && thirdLast == 'o' then AssocComebackTimeTooLong else
      UnlistedReason(0)
    case 29 =>
      if last == 't' && thirdLast == 'u' then InvalidFtActionFrameCount else
      if last == 'd' && thirdLast == 'o' then NoApFoundInRssiThreshold else
      UnlistedReason(0)
    case 33 =>
      if last == 'y' && thirdLast == 'i' then NoApFoundWCompatibleSecurity else
      if last == 'd' && thirdLast == 'o' then NoApFoundInAuthmodeThreshold else
      UnlistedReason(0)
    case 34 =>
      if last == 'd' && thirdLast == 'l' then TransmissionLinkEstablishFailed else
      UnlistedReason(0)
    case _ => UnlistedReason(0)
  }

  /** The fingerprint of the reason's name gives the reason back. */
  predicate KeyRecovers(reason: WifiReason) {
    |ReasonString(reason)| >= 3 && ReasonOfKey(NameKey(ReasonString(reason))) == reason
  }

  // One fact per listed reason, each checked on its own: together they are
  // too much for a single proof.

  lemma KeyRecoversUnspecified() ensures KeyRecovers(Unspecified) {}
  lemma KeyRecoversAuthExpire() ensures KeyRecovers(AuthExpire) {}
  lemma KeyRecoversAuthLeave() ensures KeyRecovers(AuthLeave) {}
  lemma KeyRecoversAssocExpire() ensures KeyRecovers(AssocExpire) {}
  lemma KeyRecoversAssocToomany() ensures KeyRecovers(AssocToomany) {}
  lemma KeyRecoversNotAuthed() ensures KeyRecovers(NotAuthed) {}
  lemma KeyRecoversNotAssoced() ensures KeyRecovers(NotAssoced) {}
  lemma KeyRecoversAssocLeave() ensures KeyRecovers(AssocLeave) {}
  lemma KeyRecoversAssocNotAuthed() ensures KeyRecovers(AssocNotAuthed) {}
  lemma KeyRecoversDisassocPwrcapBad() ensures KeyRecovers(DisassocPwrcapBad) {}
  lemma KeyRecoversDisassocSupchanBad() ensures KeyRecovers(DisassocSupchanBad) {}
  lemma KeyRecoversBssTransitionDisassoc() ensures KeyRecovers(BssTransitionDisassoc) {}
  lemma KeyRecoversIeInvalid() ensures KeyRecovers(IeInvalid) {}
  lemma KeyRecoversMicFailure() ensures KeyRecovers(MicFailure) {}
  lemma KeyRecoversFourWayHandshakeTimeout() ensures KeyRecovers(FourWayHandshakeTimeout) {}
  lemma KeyRecoversGroupKeyUpdateTimeout() ensures KeyRecovers(GroupKeyUpdateTimeout) {}
  lemma KeyRecoversIeIn4wayDiffers() ensures KeyRecovers(IeIn4wayDiffers) {}
  lemma KeyRecoversGroupCipherInvalid() ensures KeyRecovers(GroupCipherInvalid) {}
  lemma KeyRecoversPairwiseCipherInvalid() ensures KeyRecovers(PairwiseCipherInvalid) {}
  lemma KeyRecoversAkmpInvalid() ensures KeyRecovers(AkmpInvalid) {}
  lemma KeyRecoversUnsuppRsnIeVersion() ensures KeyRecovers(UnsuppRsnIeVersion) {}
  lemma KeyRecoversInvalidRsnIeCap() ensures KeyRecovers(InvalidRsnIeCap) {}
  lemma KeyRecoversIeee8021xAuthFailed() ensures KeyRecovers(Ieee8021xAuthFailed) {}
  lemma KeyRecoversCipherSuiteRejected() ensures KeyRecovers(CipherSuiteRejected) {}
  lemma KeyRecoversTdlsPeerUnreachable() ensures KeyRecovers(TdlsPeerUnreachable) {}
  lemma KeyRecoversTdlsUnspecified() ensures KeyRecovers(TdlsUnspecified) {}
  lemma KeyRecoversSspRequestedDisassoc() ensures KeyRecovers(SspRequestedDisassoc) {}
  lemma KeyRecoversNoSspRoamingAgreement() ensures KeyRecovers(NoSspRoamingAgreement) {}
  lemma KeyRecoversBadCipherOrAkm() ensures KeyRecovers(BadCipherOrAkm) {}
  lemma KeyRecoversNotAuthorizedThisLocation() ensures KeyRecovers(NotAuthorizedThisLocation) {}
  lemma KeyRecoversServiceChangePercludesTs() ensures KeyRecovers(ServiceChangePercludesTs) {}
  lemma KeyRecoversUnspecifiedQos() ensures KeyRecovers(UnspecifiedQos) {}
  lemma KeyRecoversNotEnoughBandwidth() ensures KeyRecovers(NotEnoughBandwidth) {}
  lemma KeyRecoversMissingAcks() ensures KeyRecovers(MissingAcks) {}
  lemma KeyRecoversExceededTxop() ensures KeyRecovers(ExceededTxop) {}
  lemma KeyRecoversStaLeaving() ensures KeyRecovers(StaLeaving) {}
  lemma KeyRecoversEndBa() ensures KeyRecovers(EndBa) {}
  lemma KeyRecoversUnknownBa() ensures KeyRecovers(UnknownBa) {}
  lemma KeyRecoversTimeout() ensures KeyRecovers(Timeout) {}
  lemma KeyRecoversPeerInitiated() ensures KeyRecovers(PeerInitiated) {}
  lemma KeyRecoversApInitiated() ensures KeyRecovers(ApInitiated) {}
  lemma KeyRecoversInvalidFtActionFrameCount() ensures KeyRecovers(InvalidFtActionFrameCount) {}
  lemma KeyRecoversInvalidPmkid() ensures KeyRecovers(InvalidPmkid) {}
  lemma KeyRecoversInvalidMde() ensures KeyRecovers(InvalidMde) {}
  lemma KeyRecoversInvalidFte() ensures KeyRecovers(InvalidFte) {}
  lemma KeyRecoversTransmissionLinkEstablishFailed() ensures KeyRecovers(TransmissionLinkEstablishFailed) {}
  lemma KeyRecoversAlterativeChannelOccupied() ensures KeyRecovers(AlterativeChannelOccupied) {}
  lemma KeyRecoversBeaconTimeout() ensures KeyRecovers(BeaconTimeout) {}
  lemma KeyRecoversNoApFound() ensures KeyRecovers(NoApFound) {}
  lemma KeyRecoversAuthFail() ensures KeyRecovers(AuthFail) {}
  lemma KeyRecoversAssocFail() ensures KeyRecovers(AssocFail) {}
  lemma KeyRecoversHandshakeTimeout() ensures KeyRecovers(HandshakeTimeout) {}
  lemma KeyRecoversConnectionFail() ensures KeyRecovers(ConnectionFail) {}
  lemma KeyRecoversApTsfReset() ensures KeyRecovers(ApTsfReset) {}
  lemma KeyRecoversRoaming() ensures KeyRecovers(Roaming) {}
  lemma KeyRecoversAssocComebackTimeTooLong() ensures KeyRecovers(AssocComebackTimeTooLong) {}
  lemma KeyRecoversSaQueryTimeout() ensures KeyRecovers(SaQueryTimeout) {}
  lemma KeyRecoversNoApFoundWCompatibleSecurity() ensures KeyRecovers(NoApFoundWCompatibleSecurity) {}
  lemma KeyRecoversNoApFoundInAuthmodeThreshold() ensures KeyRecovers(NoApFoundInAuthmodeThreshold) {}
  lemma KeyRecoversNoApFoundInRssiThreshold() ensures KeyRecovers(NoApFoundInRssiThreshold) {}

  /** For every listed reason, the fingerprint of its name determines it. */
  lemma KeyRecoversReason(reason: WifiReason)
    requires Listed(reason)
    ensures KeyRecovers(reason)
  {
    match reason
    case Unspecified => KeyRecoversUnspecified();
    case AuthExpire => KeyRecoversAuthExpire();
    case AuthLeave => KeyRecoversAuthLeave();
    case AssocExpire => KeyRecoversAssocExpire();
    case AssocToomany => KeyRecoversAssocToomany();
    case NotAuthed => KeyRecoversNotAuthed();
    case NotAssoced => KeyRecoversNotAssoced();
    case AssocLeave => KeyRecoversAssocLeave();
    case AssocNotAuthed => KeyRecoversAssocNotAuthed();
    case DisassocPwrcapBad => KeyRecoversDisassocPwrcapBad();
    case DisassocSupchanBad => KeyRecoversDisassocSupchanBad();
    case BssTransitionDisassoc => KeyRecoversBssTransitionDisassoc();
    case IeInvalid => KeyRecoversIeInvalid();
    case MicFailure => KeyRecoversMicFailure();
    case FourWayHandshakeTimeout => KeyRecoversFourWayHandshakeTimeout();
    case GroupKeyUpdateTimeout => KeyRecoversGroupKeyUpdateTimeout();
    case IeIn4wayDiffers => KeyRecoversIeIn4wayDiffers();
    case GroupCipherInvalid => KeyRecoversGroupCipherInvalid();
    case PairwiseCipherInvalid => KeyRecoversPairwiseCipherInvalid();
    case AkmpInvalid => KeyRecoversAkmpInvalid();
    case UnsuppRsnIeVersion => KeyRecoversUnsuppRsnIeVersion();
    case InvalidRsnIeCap => KeyRecoversInvalidRsnIeCap();
    case Ieee8021xAuthFailed => KeyRecoversIeee8021xAuthFailed();
    case CipherSuiteRejected => KeyRecoversCipherSuiteRejected();
    case TdlsPeerUnreachable => KeyRecoversTdlsPeerUnreachable();
    case TdlsUnspecified => KeyRecoversTdlsUnspecified();
    case SspRequestedDisassoc => KeyRecoversSspRequestedDisassoc();
    case NoSspRoamingAgreement => KeyRecoversNoSspRoamingAgreement();
    case BadCipherOrAkm => KeyRecoversBadCipherOrAkm();
    case NotAuthorizedThisLocation => KeyRecoversNotAuthorizedThisLocation();
    case ServiceChangePercludesTs => KeyRecoversServiceChangePercludesTs();
    case UnspecifiedQos => KeyRecoversUnspecifiedQos();
    case NotEnoughBandwidth => KeyRecoversNotEnoughBandwidth();
    case MissingAcks => KeyRecoversMissingAcks();
    case ExceededTxop => KeyRecoversExceededTxop();
    case StaLeaving => KeyRecoversStaLeaving();
    case EndBa => KeyRecoversEndBa();
    case UnknownBa => KeyRecoversUnknownBa();
    case Timeout => KeyRecoversTimeout();
    case PeerInitiated => KeyRecoversPeerInitiated();
    case ApInitiated => KeyRecoversApInitiated();
    case InvalidFtActionFrameCount => KeyRecoversInvalidFtActionFrameCount();
    case InvalidPmkid => KeyRecoversInvalidPmkid();
    case InvalidMde => KeyRecoversInvalidMde();
    case InvalidFte => KeyRecoversInvalidFte();
    case TransmissionLinkEstablishFailed => KeyRecoversTransmissionLinkEstablishFailed();
    case AlterativeChannelOccupied => KeyRecoversAlterativeChannelOccupied();
    case BeaconTimeout => KeyRecoversBeaconTimeout();
    case NoApFound => KeyRecoversNoApFound();
    case AuthFail => KeyRecoversAuthFail();
    case AssocFail => KeyRecoversAssocFail();
    case HandshakeTimeout => KeyRecoversHandshakeTimeout();
    case ConnectionFail => KeyRecoversConnectionFail();
    case ApTsfReset => KeyRecoversApTsfReset();
    case Roaming => KeyRecoversRoaming();
    case AssocComebackTimeTooLong => KeyRecoversAssocComebackTimeTooLong();
    case SaQueryTimeout => KeyRecoversSaQueryTimeout();
    case NoApFoundWCompatibleSecurity => KeyRecoversNoApFoundWCompatibleSecurity();
    case NoApFoundInAuthmodeThreshold => KeyRecoversNoApFoundInAuthmodeThreshold();
    case NoApFoundInRssiThreshold => KeyRecoversNoApFoundInRssiThreshold();
  }

  /** No listed reason is named "unknown": that name comes only from the
      default case. */
  lemma ListedNameIsNotUnknown(reason: WifiReason)
    requires Listed(reason)
    ensures ReasonString(reason) != "unknown"
  {
    KeyRecoversReason(reason);
    assert ReasonOfKey(NameKey("unknown")) == UnlistedReason(0);
  }

  /** The name is "unknown" exactly when the code has no case in the table. */
  lemma UnknownExactlyWhenUnlisted(reason: WifiReason)
    ensures ReasonString(reason) == "unknown" <==> !Listed(reason)
  {
    if Listed(reason) {
      ListedNameIsNotUnknown(reason);
    }
  }

  /** Distinct listed reasons have distinct names. */
  lemma ListedNamesDistinct(a: WifiReason, b: WifiReason)
    requires Listed(a) && Listed(b) && a != b
    ensures ReasonString(a) != ReasonString(b)
  {
    KeyRecoversReason(a);
    KeyRecoversReason(b);
  }
}
