/** The errors serve.go produces, one constructor per error site. The error
    strings themselves are Go formatting and are not modelled. */
module Errors {

  datatype Error =
    | InvalidUser(pair: string)          // parseUsers: a piece that is not `name=int64`
    | AdminNotFound                      // NewServer: no user named as the admin (or id 0)
    | UnknownUser(id: int)               // parseMessage: sender not registered
    | InvalidMessage(text: string)       // parseMessage: text not matched by kRecordReg
    | BadAmount(lexeme: string)          // parseMessage: strconv.ParseFloat failed
    | Remote(context: string, cause: string)  // errors.Wrap of a chat or sheet API error
}
